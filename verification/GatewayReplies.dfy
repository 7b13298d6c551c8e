/** What becomes of a vendor's reply over every interleaving: the one who asked is told exactly that,
    and a 2xx answer is cached, stored and published as it came. */
module GatewayReplies {
  import opened Wrappers
  import opened RedisStore
  import opened Wire
  import opened Responses
  import opened Gateway
  import opened GatewayHistory

  /** What a request tells its caller about its own vendor call. */
  ghost predicate Tells(out: Outcome, reply: VendorReply) {
    match reply
    case TimedOut => out.VendorTimedOut?
    case Unreachable => out.VendorUnreachable?
    case Broken => out.Aborted?
    case Answer(status, _, _, _) =>
      if 200 <= status < 300 then out.Fetched? && SameAnswer(out.response, reply)
      else out.Refused? && SameAnswer(out.response, reply)
  }

  /** Status and body as they came, and the end-to-end headers in their order. */
  ghost predicate SameAnswer(r: Response, reply: VendorReply) {
    && reply.Answer? && r.statusCode == reply.statusCode && r.body == reply.body
    && EndToEnd(reply.headers, r.headers)
  }

  predicate Positive(reply: VendorReply) {
    reply.Answer? && 200 <= reply.statusCode < 300
  }

  /** Event `p` is the reply to request `id`. */
  predicate IsReply(log: seq<Event>, p: nat, id: nat) {
    p < |log| && log[p].Replied? && log[p].id == id
  }

  ghost predicate HasReply(log: seq<Event>, id: nat) {
    exists p: nat :: IsReply(log, p, id)
  }

  /** A request that was given `reply`. */
  ghost predicate After(t: Task, reply: VendorReply) {
    && (if Positive(reply) then t.fetched.Some? && Keeps(t.fetched.value, reply) else t.fetched.None?)
    && if AfterAnswer(t.pc) then Positive(reply)
       else
         && (t.pc.Unlock? || t.pc.Done?)
         && (Tells(t.pc.out, reply) || (t.excepted && t.pc.out.Aborted? && Positive(reply)))
  }

  /** A request that has something to tell that only a reply can have told it. */
  predicate NeedsReply(t: Task) {
    || t.fetched.Some?
    || ((t.pc.Unlock? || t.pc.Done?)
        && (t.pc.out.Fetched? || t.pc.out.Refused? || t.pc.out.VendorTimedOut? || t.pc.out.VendorUnreachable?))
    || (t.pc == Unlock(Aborted) && !t.excepted)
  }

  ghost predicate ReplyFits(s: Sys, id: nat)
    requires id < |s.tasks|
  {
    var t := s.tasks[id];
    && (forall p: nat :: IsReply(s.log, p, id) ==> After(t, s.log[p].reply))
    && (NeedsReply(t) || (t.pc == Done(Aborted) && !t.excepted && Called(id) in s.log) ==> HasReply(s.log, id))
    && (t.excepted ==> (t.pc.Unlock? || t.pc.Leaving? || t.pc.Done?) && t.pc.out.Aborted?)
  }

  ghost predicate RepliesFit(s: Sys) {
    && (forall id :: 0 <= id < |s.tasks| ==> ReplyFits(s, id))
    && (forall p :: 0 <= p < |s.log| && s.log[p].Replied? ==> s.log[p].id < |s.tasks|)
    && (forall p, q :: 0 <= p < q < |s.log| && s.log[p].Replied? && s.log[q].Replied? ==> s.log[p].id != s.log[q].id)
  }

  // ----------------------------------------------------------------------------------------
  // Preservation
  // ----------------------------------------------------------------------------------------

  lemma HasReplyStays(s: Sys, s': Sys, id: nat)
    requires Grew(s, s') && HasReply(s.log, id)
    ensures HasReply(s'.log, id)
  {
    GrewKeepsEvents(s, s');
    var p: nat :| IsReply(s.log, p, id);
    assert IsReply(s'.log, p, id);
  }

  /** The reply itself. */
  lemma ReplyTaken(s: Sys, s': Sys, id: nat)
    requires id < |s.tasks| && ReplyFits(s, id) && LocalsFit(s.tasks[id]) && OnlyTask(s, s', id)
    requires s.tasks[id].pc.Calling?
    ensures ReplyFits(s', id)
  {
    GrewKeepsEvents(s, s');
    forall p: nat | IsReply(s'.log, p, id)
      ensures p == |s.log|
    {
      assert p < |s.log| ==> IsReply(s.log, p, id);
    }
    assert IsReply(s'.log, |s.log|, id);
  }

  lemma AfterStays(t: Task, t': Task, reply: VendorReply)
    requires After(t, reply) && Onward(t, t') && (Went(t, t') || Cut(t, t'))
    ensures After(t', reply)
  {
  }

  lemma MoverReplyFits(s: Sys, s': Sys, id: nat)
    requires id < |s.tasks| && ReplyFits(s, id) && CallsFit(s, id) && LocalsFit(s.tasks[id]) && OnlyTask(s, s', id)
    requires !s.tasks[id].pc.Calling?
    ensures ReplyFits(s', id)
  {
    GrewKeepsEvents(s, s');
    forall p: nat | IsReply(s'.log, p, id)
      ensures After(s'.tasks[id], s'.log[p].reply)
    {
      assert IsReply(s.log, p, id);
      AfterStays(s.tasks[id], s'.tasks[id], s.log[p].reply);
    }
    if HasReply(s.log, id) {
      HasReplyStays(s, s', id);
    }
  }

  lemma OtherReplyFits(s: Sys, s': Sys, id: nat, j: nat)
    requires id < |s.tasks| && OnlyTask(s, s', id) && j < |s.tasks| && j != id && ReplyFits(s, j)
    ensures ReplyFits(s', j)
  {
    GrewKeepsEvents(s, s');
    assert forall p: nat :: IsReply(s'.log, p, j) ==> IsReply(s.log, p, j);
    if HasReply(s.log, j) {
      HasReplyStays(s, s', j);
    }
  }

  lemma StepKeepsReplies(s: Sys, s': Sys, id: nat)
    requires History(s) && RepliesFit(s) && id < |s.tasks| && OnlyTask(s, s', id)
    ensures RepliesFit(s')
  {
    forall j | 0 <= j < |s'.tasks|
      ensures ReplyFits(s', j)
    {
      assert Consistent(s, j);
      if j != id {
        OtherReplyFits(s, s', id, j);
      } else if s.tasks[id].pc.Calling? {
        ReplyTaken(s, s', id);
      } else {
        MoverReplyFits(s, s', id);
      }
    }
    RepliesStayDistinct(s, s', id);
  }

  lemma RepliesStayDistinct(s: Sys, s': Sys, id: nat)
    requires RepliesFit(s) && id < |s.tasks| && OnlyTask(s, s', id)
    ensures forall p :: 0 <= p < |s'.log| && s'.log[p].Replied? ==> s'.log[p].id < |s'.tasks|
    ensures forall p, q :: 0 <= p < q < |s'.log| && s'.log[p].Replied? && s'.log[q].Replied? ==> s'.log[p].id != s'.log[q].id
  {
    GrewKeepsEvents(s, s');
    forall p: nat | p < |s.log| && s.log[p].Replied? && s.tasks[id].pc.Calling?
      ensures s.log[p].id != id
    {
      assert ReplyFits(s, id);
      assert s.log[p].id == id ==> IsReply(s.log, p, id);
    }
  }

  lemma QuietReplyFits(s: Sys, s': Sys, id: nat)
    requires RepliesFit(s) && History(s) && Quietly(s, s') && id < |s'.tasks|
    ensures ReplyFits(s', id)
  {
    GrewKeepsEvents(s, s');
    assert forall p: nat :: IsReply(s'.log, p, id) ==> IsReply(s.log, p, id);
    if id < |s.tasks| {
      assert ReplyFits(s, id) && Consistent(s, id);
      if HasReply(s.log, id) {
        HasReplyStays(s, s', id);
      }
    }
  }

  lemma QuietKeepsReplies(s: Sys, s': Sys)
    requires RepliesFit(s) && History(s) && Quietly(s, s')
    ensures RepliesFit(s')
  {
    GrewKeepsEvents(s, s');
    forall id | 0 <= id < |s'.tasks|
      ensures ReplyFits(s', id)
    {
      QuietReplyFits(s, s', id);
    }
  }

  lemma {:induction false} RunReplies(start: Instant, moves: seq<Move>)
    ensures RepliesFit(Run(start, moves))
  {
    if moves != [] {
      var n := |moves| - 1;
      var s, m := Run(start, moves[..n]), moves[n];
      RunReplies(start, moves[..n]);
      RunHistory(start, moves[..n]);
      if Acts(s, m) {
        StepKeepsReplies(s, Apply(s, m), m.id);
      } else {
        QuietMoves(s, m);
        QuietKeepsReplies(s, Apply(s, m));
      }
    }
  }

  // ----------------------------------------------------------------------------------------
  // What it means
  // ----------------------------------------------------------------------------------------

  lemma TellsReply(s: Sys, id: nat, reply: VendorReply)
    requires RepliesFit(s) && id < |s.tasks| && s.tasks[id].pc.Done? && Replied(id, reply) in s.log
    ensures var t := s.tasks[id];
            Tells(t.pc.out, reply) || (t.excepted && t.pc.out.Aborted? && Positive(reply))
  {
    assert ReplyFits(s, id);
    var p: nat :| p < |s.log| && s.log[p] == Replied(id, reply);
    assert IsReply(s.log, p, id);
  }

  lemma ReplyTo(s: Sys, id: nat) returns (reply: VendorReply)
    requires HasReply(s.log, id)
    ensures Replied(id, reply) in s.log
  {
    var p: nat :| IsReply(s.log, p, id);
    reply := s.log[p].reply;
  }

  /** What a request that is through and was called for tells of its reply. */
  ghost predicate Decided(s: Sys, id: nat)
    requires id < |s.tasks| && s.tasks[id].pc.Done?
  {
    var t, out := s.tasks[id], s.tasks[id].pc.out;
    && (forall reply :: Replied(id, reply) in s.log ==>
          Tells(out, reply) || (t.excepted && out.Aborted? && Positive(reply)))
    && (out.Fetched? || out.Refused? || out.VendorTimedOut? || out.VendorUnreachable? ==>
          exists reply :: Replied(id, reply) in s.log && Tells(out, reply))
    && (out.Aborted? && Called(id) in s.log && !t.excepted ==>
          exists reply :: Replied(id, reply) in s.log && reply.Broken?)
    && (t.excepted ==> out.Aborted?)
  }

  /** A vendor's reply decides what its caller is told, and nothing else does. Whoever got a reply and
      is through tells it: a 2xx answer with its status, body and end-to-end headers, any other
      answer likewise, a timeout, a failed connection or an abort as such, unless an exception
      came between a 2xx answer and the end. And no one tells of a reply it did not get. */
  lemma ReplyDecides(start: Instant, moves: seq<Move>, id: nat)
    requires id < |Run(start, moves).tasks| && Run(start, moves).tasks[id].pc.Done?
    ensures Decided(Run(start, moves), id)
  {
    RunReplies(start, moves);
    var s := Run(start, moves);
    var t := s.tasks[id];
    forall reply | Replied(id, reply) in s.log
      ensures Tells(t.pc.out, reply) || (t.excepted && t.pc.out.Aborted? && Positive(reply))
    {
      TellsReply(s, id, reply);
    }
    assert ReplyFits(s, id);
    if HasReply(s.log, id) {
      var reply := ReplyTo(s, id);
    }
  }

  /** A request is replied to once at most, and only by a move that brings this very reply while it
      waits for its vendor. */
  lemma {:induction false} RepliesAreMoves(start: Instant, moves: seq<Move>, p: nat) returns (n: nat)
    requires p < |Run(start, moves).log| && Run(start, moves).log[p].Replied?
    ensures var e := Run(start, moves).log[p];
            && n < |moves| && moves[n] == Resume(e.id, e.reply)
            && e.id < |Run(start, moves[..n]).tasks| && Run(start, moves[..n]).tasks[e.id].pc.Calling?
            && forall q :: 0 <= q < |Run(start, moves).log| && q != p ==>
                 !(Run(start, moves).log[q].Replied? && Run(start, moves).log[q].id == e.id)
  {
    RunReplies(start, moves);
    var k := |moves| - 1;
    var s, m := Run(start, moves[..k]), moves[k];
    ReplyMoves(s, m);
    if p < |s.log| {
      n := RepliesAreMoves(start, moves[..k], p);
      assert moves[..k][..n] == moves[..n];
    } else {
      n := k;
    }
  }

  /** The other way round: what is brought to a request that waits for its vendor is recorded. */
  lemma ReplyMoves(s: Sys, m: Move)
    requires AllSound(s)
    ensures var s' := Apply(s, m);
            && Grew(s, s') && (forall p :: 0 <= p < |s.log| ==> s'.log[p] == s.log[p])
            && (m.Resume? && m.id < |s.tasks| && s.tasks[m.id].pc.Calling? && Proper(m.reply) ==>
                  s'.log == s.log + [Replied(m.id, m.reply)])
            && (forall p :: |s.log| <= p < |s'.log| && s'.log[p].Replied? ==>
                  && m == Resume(s'.log[p].id, s'.log[p].reply)
                  && m.id < |s.tasks| && s.tasks[m.id].pc.Calling?)
  {
    var s' := Apply(s, m);
    if Acts(s, m) {
      GrewKeepsEvents(s, s');
      if m.Resume? && s.tasks[m.id].pc.Calling? {
        assert s' == EndCall(s, m.id, m.reply);
      }
    } else {
      QuietMoves(s, m);
      GrewKeepsEvents(s, s');
    }
  }

  /** An exception is in a request's way only if a move put it there. */
  lemma {:induction false} ExceptionsAreMoves(start: Instant, moves: seq<Move>, id: nat) returns (n: nat)
    requires id < |Run(start, moves).tasks| && Run(start, moves).tasks[id].excepted
    ensures n < |moves| && (moves[n] == Cancel(id) || moves[n] == Interrupt(id))
  {
    var k := |moves| - 1;
    var s, m := Run(start, moves[..k]), moves[k];
    if m == Cancel(id) || m == Interrupt(id) {
      n := k;
    } else {
      ExceptionMoves(s, m, id);
      n := ExceptionsAreMoves(start, moves[..k], id);
    }
  }

  /** The other way round: an exception ends whatever a request was about. In the lock holder's block it
      leads to the DEL, in a wait to the UNSUBSCRIBE, and anywhere else out at once; one that comes
      before the pending command is served leaves everything else as it was. */
  lemma ExceptionEnds(start: Instant, moves: seq<Move>, id: nat, m: Move)
    requires var s := Run(start, moves);
             && id < |s.tasks| && !s.tasks[id].pc.Done? && !s.tasks[id].pc.Unlock? && !s.tasks[id].pc.Leaving?
             && (m == Cancel(id) || m == Interrupt(id))
    ensures var s, s' := Run(start, moves), Run(start, moves + [m]);
            && id < |s'.tasks| && s'.tasks[id].excepted
            && (Holds(s.tasks[id].pc) ==> s'.tasks[id].pc == Unlock(Aborted))
            && (Waits(s.tasks[id].pc) ==> s'.tasks[id].pc == Leaving(Aborted))
            && (!Holds(s.tasks[id].pc) && !Waits(s.tasks[id].pc) ==> s'.tasks[id].pc == Done(Aborted))
            && (m.Cancel? ==> s' == s.(tasks := s'.tasks))
  {
    RunSnoc(start, moves, m);
    var s := Run(start, moves);
    if m.Interrupt? && Interruptible(s.tasks[id].pc) {
      assert Apply(s, m) == Interrupted(s, id);
    } else {
      assert Apply(s, m) == Cancelled(s, id);
    }
  }

  lemma ExceptionMoves(s: Sys, m: Move, id: nat)
    requires AllSound(s) && id < |Apply(s, m).tasks| && Apply(s, m).tasks[id].excepted
    requires m != Cancel(id) && m != Interrupt(id)
    ensures id < |s.tasks| && s.tasks[id].excepted
  {
    if Acts(s, m) {
      assert OnlyTask(s, Apply(s, m), m.id);
      assert m.Resume? ==> Stretch(s, Apply(s, m), m.id);
    }
  }

  // ----------------------------------------------------------------------------------------
  // What is kept for others
  // ----------------------------------------------------------------------------------------

  /** The TTL of a request's responses: its endpoint's, or its vendor's when that says nothing. */
  function Ttl(req: Request): int {
    if req.ttlOverride.Some? then req.ttlOverride.value else req.vendorTtl
  }

  predicate CachedBy(log: seq<Event>, p: nat, id: nat, t: Task) {
    && p < |log| && log[p].CacheWritten? && log[p].id == id && log[p].name == t.req.cacheKey
    && t.fetched == Some(log[p].stored) && log[p].ttl == Ttl(t.req)
  }

  predicate StoredBy(log: seq<Event>, p: nat, id: nat, t: Task) {
    p < |log| && log[p].Stored? && log[p].id == id && log[p].lock == t.req.dedupKey && t.fetched == Some(log[p].stored)
  }

  predicate PublishedBy(log: seq<Event>, p: nat, id: nat, t: Task) {
    p < |log| && log[p].Published? && log[p].id == id && log[p].lock == t.req.dedupKey && t.fetched == Some(log[p].stored)
  }

  /** How many of the three commands that share a response are through: SET, SET and PUBLISH. */
  function Shares(pc: Pc): nat {
    if pc.StoreResult? then 1
    else if pc.PublishResult? then 2
    else if pc.IncrClock? || pc.IncrQuota? || pc.ExpireQuota? then 3
    else if (pc.Unlock? || pc.Done?) && pc.out.Fetched? then 3
    else 0
  }

  ghost predicate SharesFit(s: Sys, id: nat)
    requires id < |s.tasks|
  {
    var t := s.tasks[id];
    && (1 <= Shares(t.pc) && 0 < Ttl(t.req) ==> exists p: nat :: CachedBy(s.log, p, id, t))
    && (2 <= Shares(t.pc) ==> exists p: nat :: StoredBy(s.log, p, id, t))
    && (3 <= Shares(t.pc) ==> exists p: nat :: PublishedBy(s.log, p, id, t))
  }

  lemma SharesStay(s: Sys, s': Sys, id: nat, t: Task, t': Task)
    requires Grew(s, s') && t'.req == t.req && t'.fetched == t.fetched
    ensures forall p: nat :: CachedBy(s.log, p, id, t) ==> CachedBy(s'.log, p, id, t')
    ensures forall p: nat :: StoredBy(s.log, p, id, t) ==> StoredBy(s'.log, p, id, t')
    ensures forall p: nat :: PublishedBy(s.log, p, id, t) ==> PublishedBy(s'.log, p, id, t')
  {
    GrewKeepsEvents(s, s');
  }

  /** The command that a holder's step carried out is in the log. */
  lemma ShareRecorded(s: Sys, s': Sys, id: nat)
    requires id < |s.tasks| && OnlyTask(s, s', id) && LocalsFit(s.tasks[id])
    ensures var t, t', n := s.tasks[id], s'.tasks[id], |s.log|;
            && (t.pc.CacheSet? && 0 < Ttl(t.req) ==> CachedBy(s'.log, n, id, t'))
            && (t.pc.StoreResult? ==> StoredBy(s'.log, n, id, t'))
            && (t.pc.PublishResult? ==> PublishedBy(s'.log, n, id, t'))
  {
  }

  lemma MoverSharesFit(s: Sys, s': Sys, id: nat)
    requires id < |s.tasks| && SharesFit(s, id) && LocalsFit(s.tasks[id]) && OnlyTask(s, s', id)
    ensures SharesFit(s', id)
  {
    ShareRecorded(s, s', id);
    if !s.tasks[id].pc.Calling? {
      SharesStay(s, s', id, s.tasks[id], s'.tasks[id]);
    }
  }

  lemma StepKeepsShares(s: Sys, s': Sys, id: nat, j: nat)
    requires id < |s.tasks| && j < |s.tasks| && SharesFit(s, j) && LocalsFit(s.tasks[j]) && OnlyTask(s, s', id)
    ensures SharesFit(s', j)
  {
    if j == id {
      MoverSharesFit(s, s', id);
    } else {
      SharesStay(s, s', j, s.tasks[j], s'.tasks[j]);
    }
  }

  lemma QuietKeepsShares(s: Sys, s': Sys, j: nat)
    requires Quietly(s, s') && j < |s'.tasks| && (j < |s.tasks| ==> SharesFit(s, j))
    ensures SharesFit(s', j)
  {
    if j < |s.tasks| {
      SharesStay(s, s', j, s.tasks[j], s'.tasks[j]);
    }
  }

  lemma {:induction false} RunShares(start: Instant, moves: seq<Move>, id: nat)
    requires id < |Run(start, moves).tasks|
    ensures SharesFit(Run(start, moves), id)
  {
    if moves != [] {
      var n := |moves| - 1;
      var s, m := Run(start, moves[..n]), moves[n];
      if id < |s.tasks| {
        RunShares(start, moves[..n], id);
      }
      RunHistory(start, moves[..n]);
      if Acts(s, m) {
        assert Consistent(s, id);
        StepKeepsShares(s, Apply(s, m), m.id, id);
      } else {
        QuietMoves(s, m);
        QuietKeepsShares(s, Apply(s, m), id);
      }
    }
  }

  /** A request that returns its own 2xx answer has stored it for waiters and published it, and
      has cached it exactly when the TTL that applies to it is positive: the answer its vendor gave,
      with the time it came. */
  lemma FetchedIsShared(start: Instant, moves: seq<Move>, id: nat) returns (reply: VendorReply)
    requires var s := Run(start, moves);
             id < |s.tasks| && s.tasks[id].pc.Done? && s.tasks[id].pc.out.Fetched?
    ensures var s := Run(start, moves);
            var t := s.tasks[id];
            && Replied(id, reply) in s.log && t.fetched.Some? && Keeps(t.fetched.value, reply) && Tells(t.pc.out, reply)
            && (exists p: nat :: StoredBy(s.log, p, id, t)) && (exists p: nat :: PublishedBy(s.log, p, id, t))
            && (0 < Ttl(t.req) <==> exists p: nat :: CachedBy(s.log, p, id, t))
  {
    RunReplies(start, moves);
    RunHistory(start, moves);
    RunShares(start, moves, id);
    var s := Run(start, moves);
    assert ReplyFits(s, id);
    reply := ReplyTo(s, id);
    KeptFor(s, id, reply);
    forall p: nat | CachedBy(s.log, p, id, s.tasks[id])
      ensures 0 < Ttl(s.tasks[id].req)
    {
      assert Authored(s, p);
    }
  }

  lemma KeptFor(s: Sys, id: nat, reply: VendorReply)
    requires RepliesFit(s) && id < |s.tasks| && Replied(id, reply) in s.log
    requires s.tasks[id].fetched.Some? || (s.tasks[id].pc.Done? && s.tasks[id].pc.out.Fetched?)
    ensures s.tasks[id].fetched.Some? && Keeps(s.tasks[id].fetched.value, reply)
    ensures s.tasks[id].pc.Done? && s.tasks[id].pc.out.Fetched? ==> Tells(s.tasks[id].pc.out, reply)
  {
    assert ReplyFits(s, id);
    var p: nat :| p < |s.log| && s.log[p] == Replied(id, reply);
    assert IsReply(s.log, p, id);
  }

  /** Everything cached, stored, published or counted comes from a request that took the lock before,
      and is what its vendor answered to it: a 2xx answer. */
  lemma OutputsAreFetched(start: Instant, moves: seq<Move>, p: nat) returns (reply: VendorReply)
    requires p < |Run(start, moves).log| && IsOutput(Run(start, moves).log[p])
    ensures var s := Run(start, moves);
            var e := s.log[p];
            && Authored(s, p) && Replied(e.id, reply) in s.log && Positive(reply)
            && (!e.Incremented? ==> Keeps(e.stored, reply))
            && (s.tasks[e.id].pc.Done? && !s.tasks[e.id].excepted ==> Tells(s.tasks[e.id].pc.out, reply))
  {
    RunHistory(start, moves);
    RunReplies(start, moves);
    var s := Run(start, moves);
    var id := s.log[p].id;
    assert Authored(s, p) && ReplyFits(s, id);
    reply := ReplyTo(s, id);
    KeptFor(s, id, reply);
    if s.tasks[id].pc.Done? {
      TellsReply(s, id, reply);
    }
  }
}
