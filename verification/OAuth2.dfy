/** Token refresh of the OAuth2 client-credentials adapter
    (`src/gateway/vendors/adapters/oauth2.py`) by any number of concurrent callers. A step is one
    stretch of a caller between two `await`s; waiting for the lock may take any time, also when
    the lock is free. */
module OAuth2 {
  import opened Wrappers
  import opened RedisStore

  const EXPIRY_BUFFER := 30.0
  const DEFAULT_LIFETIME := 3600

  /** The seconds a token lives, by the `expires_in` of a document. */
  datatype Lifetime = Stated(seconds: int) | Omitted | Garbled

  /** What the token endpoint answers: a document with a token, which may be null; or nothing
      usable. */
  datatype Reply = Document(token: Option<string>, lifetime: Lifetime) | Failure

  /** The lifetime `_fetch_token` reads. */
  function Seconds(lifetime: Lifetime): Option<int> {
    match lifetime
    case Stated(seconds) => Some(seconds)
    case Omitted => Some(DEFAULT_LIFETIME)
    case Garbled => None
  }

  datatype Pc = Checking | Waiting | Fetching | Got(token: string) | Refreshed | Raised

  /** A call of `_ensure_token`, or of `refresh_credentials` when it is forced. */
  datatype Caller = Caller(forced: bool, pc: Pc)

  datatype Event =
    | Started(id: nat, forced: bool, at: real)
    | Granted(id: nat, received: Option<string>, at: real, expiresIn: int)
    | Unreadable(id: nat, received: Option<string>)
    | Failed(id: nat)
    | Handed(id: nat, token: string, at: real, own: bool)

  datatype Sys = Sys(now: Instant, token: Option<string>, expiresAt: real, locked: bool, callers: seq<Caller>, log: seq<Event>)

  datatype Move = Tick(elapsed: real) | Call(forced: bool) | Resume(id: nat, reply: Reply) | Cancel(id: nat)

  /** No token, or one that is about to expire. */
  predicate Stale(s: Sys) {
    s.token.None? || s.now >= s.expiresAt - EXPIRY_BUFFER
  }

  function Goto(s: Sys, id: nat, pc: Pc): Sys
    requires id < |s.callers|
  {
    s.(callers := s.callers[id := s.callers[id].(pc := pc)])
  }

  function Hand(s: Sys, id: nat, own: bool): Sys
    requires id < |s.callers| && s.token.Some?
  {
    Goto(s, id, Got(s.token.value)).(log := s.log + [Handed(id, s.token.value, s.now, own)])
  }

  /** The first look at the token, without the lock. */
  function FirstCheck(s: Sys, id: nat): Sys
    requires id < |s.callers| && s.callers[id].pc.Checking?
  {
    if s.callers[id].forced || Stale(s) then Goto(s, id, Waiting) else Hand(s, id, false)
  }

  /** The lock is acquired, the token looked at again, and a fetch started if there is need. */
  function Acquire(s: Sys, id: nat): Sys
    requires id < |s.callers| && s.callers[id].pc.Waiting?
  {
    var forced := s.callers[id].forced;
    if s.locked then s
    else if forced || Stale(s) then Goto(s, id, Fetching).(locked := true, log := s.log + [Started(id, forced, s.now)])
    else Hand(s, id, false)
  }

  /** The reply of the token endpoint. The token is assigned before its lifetime is read. */
  function FinishFetch(s: Sys, id: nat, reply: Reply): Sys
    requires id < |s.callers| && s.callers[id].pc.Fetching?
  {
    if reply.Failure? then Goto(s, id, Raised).(locked := false, log := s.log + [Failed(id)])
    else if Seconds(reply.lifetime).None? then
      Goto(s, id, Raised).(locked := false, token := reply.token, log := s.log + [Unreadable(id, reply.token)])
    else
      var seconds := Seconds(reply.lifetime).value;
      var s' := s.(locked := false, token := reply.token, expiresAt := s.now + seconds as real,
                   log := s.log + [Granted(id, reply.token, s.now, seconds)]);
      if s.callers[id].forced then Goto(s', id, Refreshed)
      else if reply.token.Some? then Hand(s', id, true)
      else Goto(s', id, Raised)
  }

  function Resumed(s: Sys, id: nat, reply: Reply): Sys
    requires id < |s.callers|
  {
    match s.callers[id].pc
    case Checking => FirstCheck(s, id)
    case Waiting => Acquire(s, id)
    case Fetching => FinishFetch(s, id, reply)
    case _ => s
  }

  /** An exception at the current `await`; a caller that holds the lock releases it. */
  function Cancelled(s: Sys, id: nat): Sys
    requires id < |s.callers|
  {
    match s.callers[id].pc
    case Checking => Goto(s, id, Raised)
    case Waiting => Goto(s, id, Raised)
    case Fetching => Goto(s, id, Raised).(locked := false, log := s.log + [Failed(id)])
    case _ => s
  }

  function Apply(s: Sys, m: Move): Sys {
    match m
    case Tick(elapsed) => if 0.0 <= elapsed then s.(now := s.now + elapsed) else s
    case Call(forced) => s.(callers := s.callers + [Caller(forced, Checking)])
    case Resume(id, reply) => if id < |s.callers| then Resumed(s, id, reply) else s
    case Cancel(id) => if id < |s.callers| then Cancelled(s, id) else s
  }

  function Run(start: Instant, moves: seq<Move>): Sys {
    if moves == [] then Sys(start, None, 0.0, false, [], [])
    else Apply(Run(start, moves[..|moves| - 1]), moves[|moves| - 1])
  }

  // ----------------------------------------------------------------------------------------
  // What the history says
  // ----------------------------------------------------------------------------------------

  /** The last token received, which is none when it was null. */
  function TokenIn(log: seq<Event>): Option<string> {
    if log == [] then None
    else
      var e := log[|log| - 1];
      if e.Granted? || e.Unreadable? then e.received else TokenIn(log[..|log| - 1])
  }

  /** The end of the last lifetime granted. */
  function ExpiryIn(log: seq<Event>): real {
    if log == [] then 0.0
    else
      var e := log[|log| - 1];
      if e.Granted? then e.at + e.expiresIn as real else ExpiryIn(log[..|log| - 1])
  }

  predicate Ends(e: Event, id: nat) {
    (e.Granted? || e.Unreadable? || e.Failed?) && e.id == id
  }

  /** The fetch in flight. */
  function InFlight(log: seq<Event>): Option<nat> {
    if log == [] then None
    else
      var e := log[|log| - 1];
      if e.Started? then Some(e.id)
      else if e.Handed? then InFlight(log[..|log| - 1])
      else None
  }

  ghost predicate AllJustified(log: seq<Event>) {
    forall p :: 0 <= p < |log| ==> Justified(log, p)
  }

  /** The fields say what the history says, and only the fetch in flight holds the lock. */
  ghost predicate FieldsFit(s: Sys) {
    && s.token == TokenIn(s.log) && s.expiresAt == ExpiryIn(s.log)
    && s.locked == InFlight(s.log).Some?
    && (InFlight(s.log).Some? ==> InFlight(s.log).value < |s.callers|)
    && (forall id :: 0 <= id < |s.callers| ==> (s.callers[id].pc.Fetching? <==> InFlight(s.log) == Some(id)))
  }

  ghost predicate Inv(s: Sys) {
    FieldsFit(s) && AllJustified(s.log)
  }

  /** What event `e` makes true, right after `log`. */
  predicate JustifiedNext(log: seq<Event>, e: Event) {
    match e
    case Started(_, forced, at) =>
      InFlight(log).None? && (forced || TokenIn(log).None? || ExpiryIn(log) - 30.0 <= at)
    case Handed(id, token, at, own) =>
      && TokenIn(log) == Some(token)
      && (own ==> log != [] && log[|log| - 1].Granted? && log[|log| - 1].id == id && log[|log| - 1].at == at)
      && (!own ==> 30.0 < ExpiryIn(log) - at)
    case Granted(id, _, _, _) => InFlight(log) == Some(id)
    case Unreadable(id, _) => InFlight(log) == Some(id)
    case Failed(id) => InFlight(log) == Some(id)
  }

  predicate Justified(log: seq<Event>, p: nat)
    requires p < |log|
  {
    JustifiedNext(log[..p], log[p])
  }

  lemma LogSnoc(log: seq<Event>, e: Event)
    requires AllJustified(log) && JustifiedNext(log, e)
    ensures AllJustified(log + [e])
  {
    forall p | 0 <= p < |log + [e]|
      ensures Justified(log + [e], p)
    {
      assert (log + [e])[..p] == log[..p];
      assert p < |log| ==> Justified(log, p);
      assert log[..|log|] == log;
    }
  }

  lemma FoldsSnoc(log: seq<Event>, e: Event)
    ensures TokenIn(log + [e]) == if e.Granted? || e.Unreadable? then e.received else TokenIn(log)
    ensures ExpiryIn(log + [e]) == if e.Granted? then e.at + e.expiresIn as real else ExpiryIn(log)
    ensures InFlight(log + [e]) == if e.Started? then Some(e.id) else if e.Handed? then InFlight(log) else None
  {
    assert (log + [e])[..|log|] == log;
  }

  lemma HandKeepsInv(s: Sys, id: nat, own: bool)
    requires Inv(s) && id < |s.callers| && s.token.Some? && !s.callers[id].pc.Fetching?
    requires JustifiedNext(s.log, Handed(id, s.token.value, s.now, own))
    ensures Inv(Hand(s, id, own))
  {
    FoldsSnoc(s.log, Handed(id, s.token.value, s.now, own));
    LogSnoc(s.log, Handed(id, s.token.value, s.now, own));
  }

  lemma AcquireKeepsInv(s: Sys, id: nat)
    requires Inv(s) && id < |s.callers| && s.callers[id].pc.Waiting?
    ensures Inv(Acquire(s, id))
  {
    var forced := s.callers[id].forced;
    if !s.locked && (forced || Stale(s)) {
      FoldsSnoc(s.log, Started(id, forced, s.now));
      LogSnoc(s.log, Started(id, forced, s.now));
    } else if !s.locked {
      HandKeepsInv(s, id, false);
    }
  }

  /** The end of a fetch, but for handing the token out. */
  lemma EndKeepsInv(s: Sys, id: nat, e: Event, s': Sys)
    requires Inv(s) && id < |s.callers| && s.callers[id].pc.Fetching? && Ends(e, id)
    requires s'.log == s.log + [e] && !s'.locked && |s'.callers| == |s.callers| && !s'.callers[id].pc.Fetching?
    requires forall j :: 0 <= j < |s.callers| && j != id ==> s'.callers[j] == s.callers[j]
    requires s'.token == (if e.Failed? then s.token else e.received)
    requires s'.expiresAt == (if e.Granted? then e.at + e.expiresIn as real else s.expiresAt)
    ensures Inv(s')
  {
    FoldsSnoc(s.log, e);
    LogSnoc(s.log, e);
  }

  lemma FinishKeepsInv(s: Sys, id: nat, reply: Reply)
    requires Inv(s) && id < |s.callers| && s.callers[id].pc.Fetching?
    ensures Inv(FinishFetch(s, id, reply))
  {
    var s' := FinishFetch(s, id, reply);
    if reply.Failure? {
      EndKeepsInv(s, id, Failed(id), s');
    } else if reply.lifetime.Garbled? {
      EndKeepsInv(s, id, Unreadable(id, reply.token), s');
    } else {
      var seconds := Seconds(reply.lifetime).value;
      var e := Granted(id, reply.token, s.now, seconds);
      var ended := Goto(s, id, if s.callers[id].forced then Refreshed else Raised).(
                     locked := false, token := reply.token, expiresAt := s.now + seconds as real, log := s.log + [e]);
      EndKeepsInv(s, id, e, ended);
      if !s.callers[id].forced && reply.token.Some? {
        FoldsSnoc(s.log, e);
        HandKeepsInv(ended, id, true);
        assert Hand(ended, id, true).callers == s'.callers;
      }
    }
  }

  lemma StepKeepsInv(s: Sys, m: Move)
    requires Inv(s)
    ensures Inv(Apply(s, m))
  {
    match m
    case Resume(id, reply) =>
      if id < |s.callers| && s.callers[id].pc.Fetching? {
        FinishKeepsInv(s, id, reply);
      } else if id < |s.callers| && s.callers[id].pc.Waiting? {
        AcquireKeepsInv(s, id);
      } else if id < |s.callers| && s.callers[id].pc.Checking? && !s.callers[id].forced && !Stale(s) {
        HandKeepsInv(s, id, false);
      }
    case Cancel(id) =>
      if id < |s.callers| && s.callers[id].pc.Fetching? {
        EndKeepsInv(s, id, Failed(id), Cancelled(s, id));
      }
    case _ =>
  }

  lemma {:induction false} RunKeepsInv(start: Instant, moves: seq<Move>)
    ensures Inv(Run(start, moves))
  {
    if moves != [] {
      RunKeepsInv(start, moves[..|moves| - 1]);
      StepKeepsInv(Run(start, moves[..|moves| - 1]), moves[|moves| - 1]);
    }
  }

  // ----------------------------------------------------------------------------------------
  // What it means
  // ----------------------------------------------------------------------------------------

  /** The start of the fetch in flight, the last start in the log. */
  lemma {:induction false} StartOf(log: seq<Event>) returns (q: nat)
    requires InFlight(log).Some?
    ensures q < |log| && log[q].Started? && log[q].id == InFlight(log).value
    ensures forall r :: q < r < |log| ==> !log[r].Started?
  {
    var n := |log| - 1;
    if log[n].Started? {
      q := n;
    } else {
      q := StartOf(log[..n]);
    }
  }

  lemma JustifiedPrefix(log: seq<Event>, n: nat)
    requires AllJustified(log) && n <= |log|
    ensures AllJustified(log[..n])
  {
    forall p | 0 <= p < n
      ensures Justified(log[..n], p)
    {
      assert Justified(log, p) && log[..n][..p] == log[..p];
    }
  }

  /** A fetch that is no longer in flight has ended. */
  lemma {:induction false} FetchEnded(log: seq<Event>, p: nat) returns (r: nat)
    requires AllJustified(log) && p < |log| && log[p].Started? && InFlight(log).None?
    ensures p < r < |log| && Ends(log[r], log[p].id)
  {
    var n := |log| - 1;
    JustifiedPrefix(log, n);
    assert Justified(log, n);
    if log[n].Handed? {
      r := FetchEnded(log[..n], p);
    } else {
      var q := StartOf(log[..n]);
      if q == p {
        r := n;
      } else {
        JustifiedPrefix(log, q);
        assert Justified(log, q);
        r := FetchEnded(log[..q], p);
      }
    }
  }

  /** Single flight: at no time are two fetches running, the lock is held exactly while one is,
      and in the history a fetch ends before the next one starts, forced or not. */
  lemma SingleFlight(start: Instant, moves: seq<Move>)
    ensures var s := Run(start, moves);
            && (forall i, j :: 0 <= i < |s.callers| && 0 <= j < |s.callers| && s.callers[i].pc.Fetching? && s.callers[j].pc.Fetching? ==> i == j)
            && (s.locked <==> exists i :: 0 <= i < |s.callers| && s.callers[i].pc.Fetching?)
            && (forall p, q :: 0 <= p < q < |s.log| && s.log[p].Started? && s.log[q].Started? ==>
                  exists r :: p < r < q && Ends(s.log[r], s.log[p].id))
  {
    RunKeepsInv(start, moves);
    var s := Run(start, moves);
    forall p, q | 0 <= p < q < |s.log| && s.log[p].Started? && s.log[q].Started?
      ensures exists r :: p < r < q && Ends(s.log[r], s.log[p].id)
    {
      JustifiedPrefix(s.log, q);
      assert Justified(s.log, q);
      var r := FetchEnded(s.log[..q], p);
      assert Ends(s.log[r], s.log[p].id);
    }
    if s.locked {
      assert s.callers[InFlight(s.log).value].pc.Fetching?;
    }
  }

  /** `p` is the last grant before `q`. */
  predicate LastGrant(log: seq<Event>, p: nat, q: nat) {
    p < q <= |log| && log[p].Granted? && forall r :: p < r < q ==> !log[r].Granted?
  }

  lemma {:induction false} ExpiryOfLastGrant(log: seq<Event>, p: nat, q: nat)
    requires LastGrant(log, p, q)
    ensures ExpiryIn(log[..q]) == log[p].at + log[p].expiresIn as real
  {
    var m := q - 1;
    assert log[..q][..m] == log[..m] && log[..q][m] == log[m];
    if m != p {
      ExpiryOfLastGrant(log, p, m);
    }
  }

  /** Where the lifetime and the token at `q` come from: the last grant `p`, and the last reply with
      a token `r`, which is another one only when its lifetime could not be read. */
  predicate Origin(log: seq<Event>, p: nat, r: nat, q: nat) {
    && LastGrant(log, p, q) && p <= r < q && (log[r].Granted? || log[r].Unreadable?)
    && (forall i :: r < i < q ==> !log[i].Unreadable?)
  }

  lemma {:induction false} FindToken(log: seq<Event>, p: nat, q: nat) returns (r: nat)
    requires LastGrant(log, p, q)
    ensures Origin(log, p, r, q) && TokenIn(log[..q]) == log[r].received
  {
    var m := q - 1;
    assert log[..q][..m] == log[..m] && log[..q][m] == log[m];
    if m == p || log[m].Unreadable? {
      r := m;
    } else {
      r := FindToken(log, p, m);
    }
  }

  lemma {:induction false} FindGrant(log: seq<Event>, q: nat) returns (p: nat)
    requires q <= |log| && ExpiryIn(log[..q]) != 0.0
    ensures LastGrant(log, p, q)
  {
    var m := q - 1;
    assert log[..q][..m] == log[..m] && log[..q][m] == log[m];
    if log[m].Granted? {
      p := m;
    } else {
      p := FindGrant(log, m);
    }
  }

  /** After a grant, a fetch that is not forced starts only when at most 30 seconds are left of the
      last lifetime granted, so `expires_in - 30` seconds or more after that grant; or when the
      last token received was null. */
  lemma FetchesAreSpaced(start: Instant, moves: seq<Move>, p: nat, q: nat) returns (r: nat)
    requires var log := Run(start, moves).log;
             q < |log| && log[q].Started? && !log[q].forced && LastGrant(log, p, q)
    ensures var log := Run(start, moves).log;
            && Origin(log, p, r, q)
            && (log[r].received.None? || log[q].at - log[p].at >= log[p].expiresIn as real - 30.0)
  {
    RunKeepsInv(start, moves);
    var log := Run(start, moves).log;
    assert Justified(log, q);
    ExpiryOfLastGrant(log, p, q);
    r := FindToken(log, p, q);
  }

  /** Freshness of every token handed out. Either the caller fetched it itself in the same stretch,
      so its whole lifetime is left; or more than 30 seconds are left of the last lifetime granted.
      That lifetime is the token's own exactly when no unreadable reply came since. */
  lemma HandedWithMargin(start: Instant, moves: seq<Move>, q: nat) returns (p: nat, r: nat)
    requires var log := Run(start, moves).log;
             q < |log| && log[q].Handed?
    ensures var log := Run(start, moves).log;
            var e := log[q];
            if e.own then
              0 < q && p == r == q - 1 && log[p].Granted? && log[p] == Granted(e.id, Some(e.token), e.at, log[p].expiresIn)
            else
              && Origin(log, p, r, q) && log[r].received == Some(e.token)
              && 30.0 < log[p].at + log[p].expiresIn as real - e.at
              && (r == p <==> forall i :: p < i < q ==> !log[i].Unreadable?)
  {
    RunKeepsInv(start, moves);
    var log := Run(start, moves).log;
    assert Justified(log, q);
    TimesAreNatural(start, moves);
    if log[q].own {
      p, r := q - 1, q - 1;
      assert log[..q][..p] == log[..p] && log[..q][p] == log[p];
    } else {
      p := FindGrant(log, q);
      ExpiryOfLastGrant(log, p, q);
      r := FindToken(log, p, q);
    }
  }

  lemma {:induction false} TimesAreNatural(start: Instant, moves: seq<Move>)
    ensures forall e :: e in Run(start, moves).log && e.Handed? ==> 0.0 <= e.at
  {
    if moves != [] {
      TimesAreNatural(start, moves[..|moves| - 1]);
    }
  }

  // ----------------------------------------------------------------------------------------
  // What a caller gets
  // ----------------------------------------------------------------------------------------

  /** There is a token, and more than 30 seconds are left of the last lifetime granted. */
  predicate Usable(log: seq<Event>, now: Instant) {
    TokenIn(log).Some? && now + 30.0 < ExpiryIn(log)
  }

  /** Only caller `id` moved; the log grew by `events`. */
  predicate OnlyCaller(s: Sys, s': Sys, id: nat, pc: Pc, events: seq<Event>)
    requires id < |s.callers|
  {
    && s'.now == s.now && s'.log == s.log + events
    && s'.callers == s.callers[id := Caller(s.callers[id].forced, pc)]
  }

  /** A caller's look at the token, before the lock or under it. As long as the token can be used
      it is handed to a caller that does not force a refresh, and no fetch is made. Any other caller
      goes on to the lock and, once no fetch is in flight, starts one. */
  lemma UsableTokenIsHandedOut(start: Instant, moves: seq<Move>, id: nat, reply: Reply)
    requires var s := Run(start, moves);
             id < |s.callers| && (s.callers[id].pc.Checking? || s.callers[id].pc.Waiting?)
    ensures var s, s' := Run(start, moves), Run(start, moves + [Resume(id, reply)]);
            var c := s.callers[id];
            if c.pc.Waiting? && exists j :: 0 <= j < |s.callers| && s.callers[j].pc.Fetching? then s' == s
            else if !c.forced && Usable(s.log, s.now) then
              var token := TokenIn(s.log).value;
              OnlyCaller(s, s', id, Got(token), [Handed(id, token, s.now, false)])
            else if c.pc.Checking? then OnlyCaller(s, s', id, Waiting, [])
            else OnlyCaller(s, s', id, Fetching, [Started(id, c.forced, s.now)])
  {
    RunKeepsInv(start, moves);
    RunSnoc(start, moves, Resume(id, reply));
    var s := Run(start, moves);
    if s.locked {
      assert s.callers[InFlight(s.log).value].pc.Fetching?;
    }
  }

  lemma RunSnoc(start: Instant, moves: seq<Move>, m: Move)
    ensures Run(start, moves + [m]) == Apply(Run(start, moves), m)
  {
    assert (moves + [m])[..|moves|] == moves;
  }

  /** What a reply leaves in the log. */
  function Ending(id: nat, forced: bool, reply: Reply, at: real): seq<Event> {
    match reply
    case Failure => [Failed(id)]
    case Document(token, Garbled) => [Unreadable(id, token)]
    case Document(token, Omitted) => [Granted(id, token, at, 3600)] + Handing(id, forced, token, at)
    case Document(token, Stated(seconds)) => [Granted(id, token, at, seconds)] + Handing(id, forced, token, at)
  }

  function Handing(id: nat, forced: bool, token: Option<string>, at: real): seq<Event> {
    if !forced && token.Some? then [Handed(id, token.value, at, true)] else []
  }

  /** What `_fetch_token` makes of a reply. A document's token replaces the old one; its lifetime,
      an hour when it states none, counts from now, and the old one stays if it cannot be read. The
      caller gets the token, or has refreshed it, only with a lifetime. */
  lemma ReplyDecides(start: Instant, moves: seq<Move>, id: nat, reply: Reply)
    requires var s := Run(start, moves); id < |s.callers| && s.callers[id].pc.Fetching?
    ensures var s, s' := Run(start, moves), Run(start, moves + [Resume(id, reply)]);
            && s'.log == s.log + Ending(id, s.callers[id].forced, reply, s.now) && (forall j :: 0 <= j < |s.callers| && j != id ==> s'.callers[j] == s.callers[j])
            && |s'.callers| == |s.callers| && s'.callers[id].forced == s.callers[id].forced
            && !s'.locked && s'.token == (if reply.Document? then reply.token else s.token)
            && s'.expiresAt == (if reply.Failure? || reply.lifetime.Garbled? then s.expiresAt
                                else if reply.lifetime.Omitted? then s.now + 3600.0
                                else s.now + reply.lifetime.seconds as real)
            && (s'.callers[id].pc.Refreshed? <==> s.callers[id].forced && reply.Document? && !reply.lifetime.Garbled?)
            && (forall token :: s'.callers[id].pc == Got(token) <==>
                  !s.callers[id].forced && reply.Document? && reply.token == Some(token) && !reply.lifetime.Garbled?)
            && (!s'.callers[id].pc.Refreshed? && !s'.callers[id].pc.Got? ==> s'.callers[id].pc.Raised?)
  {
    RunSnoc(start, moves, Resume(id, reply));
  }

  /** An exception ends a call that is under way and, if that was fetching, its fetch. */
  lemma CancelEnds(start: Instant, moves: seq<Move>, id: nat)
    requires var s := Run(start, moves);
             id < |s.callers| && (s.callers[id].pc.Checking? || s.callers[id].pc.Waiting? || s.callers[id].pc.Fetching?)
    ensures var s, s' := Run(start, moves), Run(start, moves + [Cancel(id)]);
            && OnlyCaller(s, s', id, Raised, if s.callers[id].pc.Fetching? then [Failed(id)] else [])
            && s'.token == s.token && s'.expiresAt == s.expiresAt
            && forall j :: 0 <= j < |s.callers| && j != id && s'.callers[j].pc.Fetching? ==> !s.callers[id].pc.Fetching?
  {
    RunSnoc(start, moves, Cancel(id));
    RunKeepsInv(start, moves);
  }

  function RunFrom(s: Sys, moves: seq<Move>): Sys
    decreases |moves|
  {
    if moves == [] then s else RunFrom(Apply(s, moves[0]), moves[1..])
  }

  lemma {:induction false} RunIsRunFrom(start: Instant, moves: seq<Move>, more: seq<Move>)
    ensures Run(start, moves + more) == RunFrom(Run(start, moves), more)
    decreases |more|
  {
    if more == [] {
      assert moves + more == moves;
    } else {
      assert moves + more == (moves + [more[0]]) + more[1..];
      assert (moves + [more[0]])[..|moves|] == moves;
      RunIsRunFrom(start, moves + [more[0]], more[1..]);
    }
  }

  lemma TwoMoves(s: Sys, a: Move, b: Move)
    ensures RunFrom(s, [a, b]) == Apply(Apply(s, a), b)
  {
    assert [a, b][1..] == [b] && [b][1..] == [];
    assert RunFrom(Apply(s, a), [b]) == RunFrom(Apply(Apply(s, a), b), []);
  }

  lemma FourMoves(s: Sys, a: Move, b: Move, c: Move, d: Move)
    ensures RunFrom(s, [a, b, c, d]) == Apply(Apply(Apply(Apply(s, a), b), c), d)
  {
    assert [a, b, c, d][1..] == [b, c, d] && [b, c, d][1..] == [c, d];
    assert RunFrom(Apply(s, a), [b, c, d]) == RunFrom(Apply(Apply(s, a), b), [c, d]);
    TwoMoves(Apply(Apply(s, a), b), c, d);
  }

  const FIRST := [Call(false), Resume(0, Failure), Resume(0, Failure), Resume(0, Document(Some("a"), Omitted))]
  const REFRESH := [Call(true), Resume(1, Failure), Resume(1, Failure), Resume(1, Document(Some("b"), Garbled))]

  function AfterFirst(start: Instant): Sys {
    Sys(start, Some("a"), start + 3600.0, false, [Caller(false, Got("a"))],
        [Started(0, false, start), Granted(0, Some("a"), start, 3600), Handed(0, "a", start, true)])
  }

  function AfterRefresh(start: Instant): Sys {
    var s := AfterFirst(start);
    s.(token := Some("b"), callers := s.callers + [Caller(true, Raised)],
       log := s.log + [Started(1, true, start), Unreadable(1, Some("b"))])
  }

  lemma FirstFetch(start: Instant)
    ensures RunFrom(Run(start, []), FIRST) == AfterFirst(start)
  {
    FourMoves(Run(start, []), FIRST[0], FIRST[1], FIRST[2], FIRST[3]);
  }

  lemma RefreshFails(start: Instant)
    ensures RunFrom(AfterFirst(start), REFRESH) == AfterRefresh(start)
  {
    FourMoves(AfterFirst(start), REFRESH[0], REFRESH[1], REFRESH[2], REFRESH[3]);
  }

  lemma NextCallerServed(start: Instant)
    ensures var log := RunFrom(AfterRefresh(start), [Call(false), Resume(2, Failure)]).log;
            log == AfterRefresh(start).log + [Handed(2, "b", start, false)]
  {
    TwoMoves(AfterRefresh(start), Call(false), Resume(2, Failure));
  }

  lemma RefreshRun(start: Instant)
    ensures Run(start, FIRST + REFRESH) == AfterRefresh(start)
  {
    RunIsRunFrom(start, [], FIRST);
    assert [] + FIRST == FIRST;
    FirstFetch(start);
    RunIsRunFrom(start, FIRST, REFRESH);
    RefreshFails(start);
  }

  /** The exception is real: a forced refresh whose reply has a token but no readable lifetime
      replaces the token and keeps the old lifetime, and the next caller is handed that token. */
  lemma UnreadableRefresh(start: Instant)
    ensures var log := Run(start, FIRST + REFRESH + [Call(false), Resume(2, Failure)]).log;
            && |log| == 6 && log[5] == Handed(2, "b", start, false)
            && forall e :: e in log && e.Granted? ==> e.received == Some("a")
  {
    RefreshRun(start);
    RunIsRunFrom(start, FIRST + REFRESH, [Call(false), Resume(2, Failure)]);
    NextCallerServed(start);
  }

  const NULL_GRANT := [Call(false), Resume(0, Failure), Resume(0, Failure), Resume(0, Document(None, Stated(3600)))]

  lemma NullGrant(start: Instant)
    ensures var s := RunFrom(Run(start, []), NULL_GRANT);
            && s == Sys(start, None, start + 3600.0, false, [Caller(false, Raised)], s.log)
            && s.log == [Started(0, false, start), Granted(0, None, start, 3600)]
  {
    FourMoves(Run(start, []), NULL_GRANT[0], NULL_GRANT[1], NULL_GRANT[2], NULL_GRANT[3]);
  }

  lemma NextCallerFetches(s: Sys)
    requires s.token.None? && !s.locked && |s.callers| == 1
    ensures RunFrom(s, [Call(false), Resume(1, Failure), Resume(1, Failure), Tick(0.0)]).log == s.log + [Started(1, false, s.now)]
  {
    FourMoves(s, Call(false), Resume(1, Failure), Resume(1, Failure), Tick(0.0));
  }

  /** That exception is real too: a reply whose token is null fails its own caller and makes the
      next one fetch at once, although its lifetime of an hour was granted. */
  lemma NullTokenIsFetchedAgain(start: Instant)
    ensures var log := Run(start, NULL_GRANT + [Call(false), Resume(1, Failure), Resume(1, Failure), Tick(0.0)]).log;
            log == [Started(0, false, start), Granted(0, None, start, 3600), Started(1, false, start)]
  {
    RunIsRunFrom(start, [], NULL_GRANT);
    assert [] + NULL_GRANT == NULL_GRANT;
    NullGrant(start);
    RunIsRunFrom(start, NULL_GRANT, [Call(false), Resume(1, Failure), Resume(1, Failure), Tick(0.0)]);
    NextCallerFetches(Run(start, NULL_GRANT));
  }
}
