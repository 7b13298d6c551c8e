/** The pipeline as it changes the gateway's state in place: each stretch of a request's code
    between two `await`s is a method that issues its Redis command and moves the request on. Every
    method does to the state exactly what the pipeline's specification says, so what is proved
    of all runs of the specification holds of all runs of the server. */
module GatewayServer {
  import opened Wrappers
  import opened Numbers
  import opened RedisStore
  import opened Wire
  import opened Responses
  import opened Calendar
  import opened Gateway

  class Server {
    const redis: Redis<Key>
    var tasks: seq<Task>
    var log: seq<Event>

    ghost function State(): Sys
      reads this, redis
    {
      Sys(redis.now, redis.store, redis.subs, tasks, log)
    }

    constructor (start: Instant)
      ensures fresh(redis) && State() == Initial(start)
    {
      redis := new Redis(start);
      tasks, log := [], [];
    }

    method MoveTo(id: nat, pc: Pc)
      requires id < |tasks|
      modifies this`tasks
      ensures tasks == old(tasks)[id := old(tasks)[id].(pc := pc)]
    {
      tasks := tasks[id := tasks[id].(pc := pc)];
    }

    /** `check_quota` and the branch on its result. */
    method CheckQuota(id: nat, index: int)
      requires At(State(), id, QuotaGet(index))
      modifies this`tasks
      ensures State() == Gateway.CheckQuota(old(State()), id, index)
    {
      var quota := tasks[id].req.quota.value;
      var value := redis.Get(QuotaKey(quota.ref, index));
      var current := if value.Some? && value.value.Count? then value.value.n else 0;
      if current < quota.limit {
        MoveTo(id, CacheGet);
      } else {
        MoveTo(id, Done(QuotaExceeded(current)));
      }
    }

    /** `get_cached` and the answer on a hit. */
    method CheckCache(id: nat)
      requires At(State(), id, CacheGet)
      modifies this`tasks
      ensures State() == Gateway.CheckCache(old(State()), id)
    {
      var raw := redis.Get(CacheKey(tasks[id].req.cacheKey));
      if raw.None? {
        MoveTo(id, Lock);
      } else {
        var cached := Decoded(raw);
        MoveTo(id, Done(if cached.None? then Aborted else Hit(FromStore(cached.value))));
      }
    }

    /** `_acquire_lock` and the branch on its result. */
    method AcquireLock(id: nat)
      requires At(State(), id, Lock)
      modifies this, redis`store
      ensures State() == Gateway.TakeLock(old(State()), id)
    {
      var t := tasks[id];
      var acquired := redis.SetIfAbsent(LockKey(t.req.dedupKey), Text("1"), LOCK_TTL);
      if acquired {
        tasks := tasks[id := t.(pc := CallVendor, heldSince := redis.now, acquiredAt := |log|)];
        log := log + [Acquired(id, t.req.dedupKey)];
      } else {
        MoveTo(id, Subscribing);
      }
    }

    method CallVendorApi(id: nat)
      requires At(State(), id, CallVendor)
      modifies this
      ensures State() == Gateway.StartCall(old(State()), id)
    {
      MoveTo(id, Calling);
      log := log + [Called(id)];
    }

    /** The vendor's reply, and what becomes of a 2xx one. */
    method TakeReply(id: nat, reply: VendorReply)
      requires At(State(), id, Calling) && Proper(reply)
      modifies this
      ensures State() == Gateway.EndCall(old(State()), id, reply)
    {
      match reply {
        case TimedOut => MoveTo(id, Unlock(VendorTimedOut));
        case Unreachable => MoveTo(id, Unlock(VendorUnreachable));
        case Broken => MoveTo(id, Unlock(Aborted));
        case Answer(status, headers, body, at) =>
          var filtered := FilterHeaders(headers);
          if Ok(status) {
            var stored := CachedResponse(status, filtered, body, at);
            tasks := tasks[id := tasks[id].(pc := CacheSet, fetched := Some(stored))];
          } else {
            MoveTo(id, Unlock(Refused(Response(status, filtered, body))));
          }
      }
      log := log + [Replied(id, reply)];
    }

    method StoreEntry(id: nat, name: string, stored: CachedResponse, ttl: int)
      modifies this`log, redis`store
      ensures redis.store == SetEx(old(redis.store), CacheKey(name), Text(Serialise(stored)), redis.now, ttl)
      ensures log == old(log) + [CacheWritten(id, name, stored, redis.now, ttl)]
    {
      redis.Set(CacheKey(name), Text(Serialise(stored)), ttl);
      log := log + [CacheWritten(id, name, stored, redis.now, ttl)];
    }

    /** `set_cached`. */
    method SetCached(id: nat)
      requires At(State(), id, CacheSet)
      modifies this, redis`store
      ensures State() == Gateway.WriteCache(old(State()), id)
    {
      var t := tasks[id];
      MoveTo(id, StoreResult);
      if CacheTtl(t.req) <= 0 || !Ok(t.fetched.value.statusCode) {
        return;
      }
      StoreEntry(id, t.req.cacheKey, t.fetched.value, CacheTtl(t.req));
    }

    /** `dedup_publish`: its SET, then its PUBLISH. */
    method StoreForWaiters(id: nat)
      requires At(State(), id, StoreResult)
      modifies this, redis`store
      ensures State() == Gateway.WriteResult(old(State()), id)
    {
      var t := tasks[id];
      redis.Set(ResultKey(t.req.dedupKey), Text(Serialise(t.fetched.value)), RESULT_TTL);
      log := log + [Stored(id, t.req.dedupKey, t.fetched.value, redis.now)];
      MoveTo(id, PublishResult);
    }

    method PublishToWaiters(id: nat)
      requires At(State(), id, PublishResult)
      modifies this, redis`subs
      ensures State() == Gateway.SendResult(old(State()), id)
    {
      var t := tasks[id];
      redis.PublishTo(t.req.dedupKey, Serialise(t.fetched.value));
      log := log + [Published(id, t.req.dedupKey, t.fetched.value)];
      MoveTo(id, if t.req.quota.Some? then IncrClock else Unlock(Answered(t)));
    }

    /** `increment_quota`: its INCR, then its EXPIRE on the first write. */
    method IncrementQuota(id: nat, index: int)
      requires At(State(), id, IncrQuota(index))
      modifies this, redis`store
      ensures State() == Gateway.Increment(old(State()), id, index)
    {
      var t := tasks[id];
      var key := QuotaKey(t.req.quota.value.ref, index);
      var count := redis.Increment(key);
      log := log + [Incremented(id, key.ref, index)];
      MoveTo(id, if count == 1 then ExpireQuota(index) else Unlock(Answered(t)));
    }

    method ExpireQuotaKey(id: nat, index: int)
      requires At(State(), id, ExpireQuota(index))
      modifies this`tasks, redis`store
      ensures State() == Gateway.SetQuotaExpiry(old(State()), id, index)
    {
      var ref := tasks[id].req.quota.value.ref;
      redis.ExpireIn(QuotaKey(ref, index), PeriodTtl(ref.period));
      MoveTo(id, Unlock(Answered(tasks[id])));
    }

    /** `_release_lock`: an unconditional DEL. */
    method ReleaseLock(id: nat, out: Outcome)
      requires At(State(), id, Unlock(out))
      modifies this`tasks, redis`store
      ensures State() == Gateway.ReleaseLock(old(State()), id, out)
    {
      var _ := redis.Delete({LockKey(tasks[id].req.dedupKey)});
      MoveTo(id, Done(out));
    }

    /** The stretches of `dedup_wait`. */
    method SubscribeToResult(id: nat)
      requires At(State(), id, Subscribing)
      modifies this`tasks, redis`subs
      ensures State() == Gateway.Subscribe(old(State()), id)
    {
      var t := tasks[id];
      redis.Subscribe(id, t.req.dedupKey);
      tasks := tasks[id := t.(pc := ResultGet, wait := t.wait.(subAt := |log|, seen := |log|))];
    }

    method ReadStoredResult(id: nat)
      requires At(State(), id, ResultGet)
      modifies this`tasks
      ensures State() == Gateway.ReadResult(old(State()), id)
    {
      var t := tasks[id];
      var raw := redis.Get(ResultKey(t.req.dedupKey));
      var stored := Decoded(raw);
      var pc := if raw.None? then Deadline else Leaving(if stored.None? then Aborted else Waited(FromStore(stored.value)));
      tasks := tasks[id := t.(pc := pc, wait := t.wait.(gotAt := |log|, gotTime := redis.now))];
    }

    method StartPolling(id: nat)
      requires At(State(), id, Deadline)
      modifies this`tasks
      ensures State() == Gateway.SetDeadline(old(State()), id)
    {
      var t := tasks[id];
      tasks := tasks[id := t.(pc := Poll, wait := t.wait.(deadline := redis.now + WAIT_TIMEOUT))];
    }

    method PollUntilDeadline(id: nat)
      requires At(State(), id, Poll)
      modifies this`tasks
      ensures State() == Gateway.CheckDeadline(old(State()), id)
    {
      var remaining := tasks[id].wait.deadline - redis.now;
      MoveTo(id, if remaining <= 0.0 then Leaving(WaitTimedOut) else Receive(redis.now + Min(remaining, 0.1)));
    }

    /** `get_message`: see the specification for the confirmation and the timeout. */
    method GetMessage(id: nat, until: real)
      requires At(State(), id, Receive(until))
      modifies this`tasks, redis`subs
      ensures State() == ReceiveMessage(old(State()), id, until)
    {
      if id in redis.subs {
        var t := tasks[id];
        var sub := redis.subs[id];
        if !sub.confirmed {
          redis.subs := redis.subs[id := sub.(confirmed := true)];
          tasks := tasks[id := t.(pc := Sleep(redis.now + 0.01), wait := t.wait.(polls := t.wait.polls + 1))];
        } else if sub.messages != [] {
          var c := Deserialise(sub.messages[0]);
          redis.subs := redis.subs[id := sub.(messages := sub.messages[1..])];
          MoveTo(id, Leaving(if c.None? then Aborted else Waited(FromStore(c.value))));
        } else if until <= redis.now {
          tasks := tasks[id := t.(pc := Sleep(redis.now + 0.01), wait := t.wait.(polls := t.wait.polls + 1, seen := |log|))];
        }
      }
    }

    /** The end of `asyncio.sleep`. */
    method Wake(id: nat, until: real)
      requires At(State(), id, Sleep(until))
      modifies this`tasks
      ensures State() == WakeUp(old(State()), id, until)
    {
      if until <= redis.now {
        MoveTo(id, Poll);
      }
    }

    method Leave(id: nat, out: Outcome)
      requires At(State(), id, Leaving(out))
      modifies this`tasks, redis`subs
      ensures State() == Gateway.Unsubscribe(old(State()), id, out)
    {
      redis.Unsubscribe(id);
      MoveTo(id, Done(out));
    }

    method ResumeWaiter(id: nat, reply: VendorReply)
      requires id < |tasks| && Sound(tasks[id]) && Proper(reply)
      requires tasks[id].pc.Subscribing? || tasks[id].pc.ResultGet? || tasks[id].pc.Deadline? || tasks[id].pc.Leaving?
      modifies this`tasks, redis`subs
      ensures State() == Resumed(old(State()), id, reply)
    {
      var pc := tasks[id].pc;
      if pc.Subscribing? {
        SubscribeToResult(id);
      } else if pc.ResultGet? {
        ReadStoredResult(id);
      } else if pc.Deadline? {
        StartPolling(id);
      } else {
        Leave(id, pc.out);
      }
    }

    method ResumePoll(id: nat, reply: VendorReply)
      requires id < |tasks| && Sound(tasks[id]) && Proper(reply)
      requires tasks[id].pc.Poll? || tasks[id].pc.Receive? || tasks[id].pc.Sleep?
      modifies this`tasks, redis`subs
      ensures State() == Resumed(old(State()), id, reply)
    {
      var pc := tasks[id].pc;
      if pc.Poll? {
        PollUntilDeadline(id);
      } else if pc.Receive? {
        GetMessage(id, pc.until);
      } else {
        Wake(id, pc.until);
      }
    }

    method ResumeHolder(id: nat, reply: VendorReply)
      requires id < |tasks| && Sound(tasks[id]) && Proper(reply) && Holds(tasks[id].pc)
      modifies this, redis
      ensures State() == Resumed(old(State()), id, reply)
    {
      var pc := tasks[id].pc;
      if pc.CallVendor? {
        CallVendorApi(id);
      } else if pc.Calling? {
        TakeReply(id, reply);
      } else if pc.Unlock? {
        ReleaseLock(id, pc.out);
      } else if pc.CacheSet? || pc.StoreResult? || pc.PublishResult? {
        ResumeStoring(id, reply);
      } else {
        ResumeCounting(id, reply);
      }
    }

    method ResumeStoring(id: nat, reply: VendorReply)
      requires id < |tasks| && Sound(tasks[id]) && Proper(reply)
      requires tasks[id].pc.CacheSet? || tasks[id].pc.StoreResult? || tasks[id].pc.PublishResult?
      modifies this, redis
      ensures State() == Resumed(old(State()), id, reply)
    {
      var pc := tasks[id].pc;
      if pc.CacheSet? {
        SetCached(id);
      } else if pc.StoreResult? {
        StoreForWaiters(id);
      } else {
        PublishToWaiters(id);
      }
    }

    method ResumeCounting(id: nat, reply: VendorReply)
      requires id < |tasks| && Sound(tasks[id]) && Proper(reply)
      requires tasks[id].pc.IncrClock? || tasks[id].pc.IncrQuota? || tasks[id].pc.ExpireQuota?
      modifies this, redis
      ensures State() == Resumed(old(State()), id, reply)
    {
      var pc := tasks[id].pc;
      if pc.IncrClock? {
        MoveTo(id, IncrQuota(PeriodIndex(tasks[id].req.quota.value.ref.period, redis.now)));
      } else if pc.IncrQuota? {
        IncrementQuota(id, pc.index);
      } else {
        ExpireQuotaKey(id, pc.index);
      }
    }

    /** The event loop resumes request `id`. */
    method Resume(id: nat, reply: VendorReply)
      requires id < |tasks| && Sound(tasks[id]) && Proper(reply)
      modifies this, redis
      ensures State() == Resumed(old(State()), id, reply)
    {
      var pc := tasks[id].pc;
      if Holds(pc) {
        ResumeHolder(id, reply);
      } else if pc.QuotaClock? {
        MoveTo(id, QuotaGet(PeriodIndex(tasks[id].req.quota.value.ref.period, redis.now)));
      } else if pc.QuotaGet? {
        CheckQuota(id, pc.index);
      } else if pc.CacheGet? {
        CheckCache(id);
      } else if pc.Lock? {
        AcquireLock(id);
      } else if pc.Poll? || pc.Receive? || pc.Sleep? {
        ResumePoll(id, reply);
      } else if !pc.Done? {
        ResumeWaiter(id, reply);
      }
    }

    /** An exception reaches request `id` at its current `await`. */
    method Cancel(id: nat)
      requires id < |tasks| && Sound(tasks[id])
      modifies this`tasks
      ensures State() == Cancelled(old(State()), id)
    {
      var pc := tasks[id].pc;
      if !pc.Done? && !pc.Unlock? && !pc.Leaving? {
        tasks := tasks[id := tasks[id].(pc := AbortedAt(pc), excepted := true)];
      }
    }

    /** The pending command is served, and then an exception reaches request `id` instead of the
        reply. */
    method Interrupt(id: nat)
      requires id < |tasks| && Sound(tasks[id]) && Interruptible(tasks[id].pc)
      modifies this, redis
      ensures State() == Interrupted(old(State()), id)
    {
      var t := tasks[id];
      if t.pc.Lock? {
        var stored := redis.SetIfAbsent(LockKey(t.req.dedupKey), Text("1"), LOCK_TTL);
        if stored {
          log := log + [Orphaned(id, t.req.dedupKey, redis.now)];
        }
      } else {
        Resume(id, Broken);
      }
      tasks := tasks[id := t.(pc := AbortedAt(t.pc), excepted := true)];
    }

    /** One move of the world. */
    method Step(m: Move)
      requires AllSound(State())
      modifies this, redis
      ensures State() == Apply(old(State()), m)
    {
      match m {
        case Tick(elapsed) => if 0.0 <= elapsed { redis.Tick(elapsed); }
        case Arrive(req) => tasks := tasks + [Arrival(req)];
        case Resume(id, reply) => if id < |tasks| && Proper(reply) { Resume(id, reply); }
        case Cancel(id) => if id < |tasks| { Cancel(id); }
        case Interrupt(id) =>
          if id < |tasks| {
            if Interruptible(tasks[id].pc) {
              Interrupt(id);
            } else {
              Cancel(id);
            }
          }
        case Flush(names) =>
          var _ := redis.Delete(CacheKeys(names));
          log := log + [CacheFlushed(names)];
      }
    }

    /** Any interleaving of arrivals, resumptions, exceptions, flushes and the passing of time. */
    method Serve(moves: seq<Move>)
      requires State() == Initial(redis.now)
      modifies this, redis
      ensures State() == Run(old(redis.now), moves)
    {
      ghost var start := redis.now;
      for n := 0 to |moves|
        invariant State() == Run(start, moves[..n])
      {
        ghost var m := n + 1;
        assert moves[..m][..n] == moves[..n] && moves[..m][n] == moves[n];
        assert AllSound(State());
        Step(moves[n]);
      }
      assert moves[..|moves|] == moves;
    }
  }
}
