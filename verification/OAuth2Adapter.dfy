/** The adapter object, its fields updated in place by the stretches of `_ensure_token`,
    `_fetch_token` and `refresh_credentials` (`src/gateway/vendors/adapters/oauth2.py`). */
module OAuth2Adapter {
  import opened Wrappers
  import opened RedisStore
  import opened OAuth2

  class Adapter {
    var clock: Instant
    var accessToken: Option<string>
    var expiresAt: real
    var locked: bool
    var callers: seq<Caller>
    var log: seq<Event>

    ghost function State(): Sys
      reads this
    {
      Sys(clock, accessToken, expiresAt, locked, callers, log)
    }

    constructor (start: Instant)
      ensures State() == Run(start, [])
    {
      clock, accessToken, expiresAt, locked, callers, log := start, None, 0.0, false, [], [];
    }

    /** `_is_expired`. */
    predicate IsExpired()
      reads this
    {
      clock >= expiresAt - EXPIRY_BUFFER
    }

    method Return(id: nat, own: bool)
      requires id < |callers| && accessToken.Some?
      modifies this
      ensures State() == Hand(old(State()), id, own)
    {
      callers := callers[id := callers[id].(pc := Got(accessToken.value))];
      log := log + [Handed(id, accessToken.value, clock, own)];
    }

    method MoveTo(id: nat, pc: Pc)
      requires id < |callers|
      modifies this`callers
      ensures callers == old(callers)[id := old(callers)[id].(pc := pc)]
    {
      callers := callers[id := callers[id].(pc := pc)];
    }

    /** The outer check of `_ensure_token`. */
    method LookFirst(id: nat)
      requires id < |callers| && callers[id].pc.Checking?
      modifies this
      ensures State() == FirstCheck(old(State()), id)
    {
      if callers[id].forced || accessToken.None? || IsExpired() {
        MoveTo(id, Waiting);
      } else {
        Return(id, false);
      }
    }

    /** `async with self._lock`, and the check under the lock. */
    method EnterLock(id: nat)
      requires id < |callers| && callers[id].pc.Waiting?
      modifies this
      ensures State() == Acquire(old(State()), id)
    {
      if !locked {
        locked := true;
        if callers[id].forced || accessToken.None? || IsExpired() {
          log := log + [Started(id, callers[id].forced, clock)];
          MoveTo(id, Fetching);
        } else {
          locked := false;
          Return(id, false);
        }
      }
    }

    /** The rest of `_fetch_token` once the endpoint replied, and the way out of the lock. */
    method FetchToken(id: nat, reply: Reply)
      requires id < |callers| && callers[id].pc.Fetching?
      modifies this
      ensures State() == FinishFetch(old(State()), id, reply)
    {
      locked := false;
      if reply.Failure? {
        log := log + [Failed(id)];
        MoveTo(id, Raised);
        return;
      }
      accessToken := reply.token;
      if reply.lifetime.Garbled? {
        log := log + [Unreadable(id, reply.token)];
        MoveTo(id, Raised);
        return;
      }
      var seconds := if reply.lifetime.Stated? then reply.lifetime.seconds else DEFAULT_LIFETIME;
      expiresAt := clock + seconds as real;
      log := log + [Granted(id, reply.token, clock, seconds)];
      if callers[id].forced {
        MoveTo(id, Refreshed);
      } else if accessToken.None? {
        MoveTo(id, Raised);
      } else {
        Return(id, true);
      }
    }

    /** An exception at the current `await`. */
    method Abandon(id: nat)
      requires id < |callers|
      modifies this
      ensures State() == Cancelled(old(State()), id)
    {
      match callers[id].pc {
        case Checking => MoveTo(id, Raised);
        case Waiting => MoveTo(id, Raised);
        case Fetching =>
          locked := false;
          log := log + [Failed(id)];
          MoveTo(id, Raised);
        case _ =>
      }
    }

    /** Any interleaving of callers, replies, exceptions and the passing of time. */
    method Serve(moves: seq<Move>)
      requires State() == Run(clock, [])
      modifies this
      ensures State() == Run(old(clock), moves)
    {
      ghost var start := clock;
      for n := 0 to |moves|
        invariant State() == Run(start, moves[..n])
      {
        ghost var m := n + 1;
        assert moves[..m][..n] == moves[..n] && moves[..m][n] == moves[n];
        match moves[n] {
          case Tick(elapsed) => if 0.0 <= elapsed { clock := clock + elapsed; }
          case Call(forced) => callers := callers + [Caller(forced, Checking)];
          case Resume(id, reply) =>
            if id < |callers| {
              match callers[id].pc {
                case Checking => LookFirst(id);
                case Waiting => EnterLock(id);
                case Fetching => FetchToken(id, reply);
                case _ =>
              }
            }
          case Cancel(id) => if id < |callers| { Abandon(id); }
        }
      }
      assert moves[..|moves|] == moves;
    }
  }
}
