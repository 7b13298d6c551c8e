/** `dedup_wait` as the loop it is in `src/gateway/cache/dedup.py`, run by one request of a server
    while every other request goes on as it likes between its polls. */
module GatewayDedupWait {
  import opened RedisStore
  import opened Gateway
  import opened GatewayHistory
  import opened GatewayWait
  import opened GatewayServer

  /** `get_message` has something to return before its timeout. */
  predicate Ready(s: Sys, id: nat) {
    id < |s.tasks| && s.tasks[id].pc.Receive? && id in s.subs && (!s.subs[id].confirmed || s.subs[id].messages != [])
  }

  predicate Touches(m: Move, id: nat) {
    (m.Resume? || m.Cancel? || m.Interrupt?) && m.id == id
  }

  lemma UntouchedStays(s: Sys, m: Move, id: nat)
    requires AllSound(s) && id < |s.tasks| && !Touches(m, id)
    ensures var s' := Apply(s, m);
            id < |s'.tasks| && s'.tasks[id] == s.tasks[id] && s.now <= s'.now
  {
    if Acts(s, m) {
      assert OnlyTask(s, Apply(s, m), m.id);
    }
  }

  /** The other requests run, and time passes, until request `id` can go on. */
  method Suspend(server: Server, id: nat, until: real, start: Instant, moves: seq<Move>) returns (moves': seq<Move>)
    requires server.State() == Run(start, moves) && id < |server.tasks|
    modifies server, server.redis
    ensures moves <= moves' && server.State() == Run(start, moves')
    ensures id < |server.tasks| && server.tasks[id] == old(server.tasks[id])
    ensures old(server.redis.now) <= server.redis.now
    ensures until <= server.redis.now || Ready(server.State(), id)
  {
    var world: seq<Move> := *;
    moves' := moves;
    for n := 0 to |world|
      invariant moves <= moves' && server.State() == Run(start, moves') && old(server.redis.now) <= server.redis.now
      invariant id < |server.tasks| && server.tasks[id] == old(server.tasks[id])
    {
      if !Touches(world[n], id) {
        UntouchedStays(server.State(), world[n], id);
        RunSnoc(start, moves', world[n]);
        server.Step(world[n]);
        moves' := moves' + [world[n]];
      }
    }
    var ready := server.tasks[id].pc.Receive? && id in server.redis.subs
              && (!server.redis.subs[id].confirmed || server.redis.subs[id].messages != []);
    if server.redis.now < until && !ready {
      var tick := Tick(until - server.redis.now);
      RunSnoc(start, moves', tick);
      server.Step(tick);
      moves' := moves' + [tick];
    }
  }

  /** One stretch of the waiting request itself. */
  method Proceed(server: Server, id: nat, start: Instant, moves: seq<Move>) returns (moves': seq<Move>)
    requires server.State() == Run(start, moves) && id < |server.tasks|
    modifies server, server.redis
    ensures moves <= moves' && server.State() == Run(start, moves')
    ensures Sound(old(server.State()).tasks[id])
    ensures server.State() == Resumed(old(server.State()), id, TimedOut)
  {
    RunSnoc(start, moves, Resume(id, TimedOut));
    assert AllSound(server.State());
    server.Resume(id, TimedOut);
    moves' := moves + [Resume(id, TimedOut)];
  }

  /** Nothing that a waiter reads is unreadable. */
  lemma ReadsWell(start: Instant, moves: seq<Move>, id: nat)
    requires var s := Run(start, moves);
             id < |s.tasks| && Sound(s.tasks[id]) && (s.tasks[id].pc.ResultGet? || s.tasks[id].pc.Receive?)
    ensures Resumed(Run(start, moves), id, TimedOut).tasks[id].pc != Leaving(Aborted)
  {
    RunWaiters(start, moves);
    RunHistory(start, moves);
    var s := Run(start, moves);
    assert Watched(s, id);
    if s.tasks[id].pc.ResultGet? {
      if Alive(s.store, ResultKey(s.tasks[id].req.dedupKey), s.now) {
        var _ := StoredIsSourced(s, s.tasks[id].req.dedupKey, ReadResult(s, id).tasks[id].wait);
      }
    } else if s.subs[id].messages != [] {
      var _ := MessageIsSourced(s, id);
    }
  }

  /** Leaving with a response or with the timeout. */
  predicate Leaves(pc: Pc) {
    pc.Leaving? && (pc.out.Waited? || pc.out.WaitTimedOut?)
  }

  lemma ReadingGoesOn(start: Instant, moves: seq<Move>, id: nat)
    requires At(Run(start, moves), id, ResultGet)
    ensures var t' := Resumed(Run(start, moves), id, TimedOut).tasks[id];
            t'.pc.Deadline? || Leaves(t'.pc)
  {
    ReadsWell(start, moves, id);
  }

  lemma ReceiveStep(s: Sys, id: nat, until: real)
    requires At(s, id, Receive(until)) && id in s.subs && (until <= s.now || Ready(s, id))
    ensures var t' := ReceiveMessage(s, id, until).tasks[id];
            && t'.wait.deadline == s.tasks[id].wait.deadline
            && (t'.pc == Sleep(s.now + 0.01) || Leaves(t'.pc) || t'.pc == Leaving(Aborted))
  {
  }

  lemma WaiterSubscribed(start: Instant, moves: seq<Move>, id: nat)
    requires id < |Run(start, moves).tasks| && Waits(Run(start, moves).tasks[id].pc)
    ensures id in Run(start, moves).subs
  {
    NoLostWakeup(start, moves, id);
  }

  lemma ReceiveResumed(s: Sys, id: nat, until: real)
    requires At(s, id, Receive(until))
    ensures Resumed(s, id, TimedOut) == ReceiveMessage(s, id, until)
  {
  }

  lemma ReceivingGoesOn(s: Sys, id: nat, until: real)
    requires At(s, id, Receive(until)) && id in s.subs && (until <= s.now || Ready(s, id))
    requires Resumed(s, id, TimedOut).tasks[id].pc != Leaving(Aborted)
    ensures var t' := Resumed(s, id, TimedOut).tasks[id];
            t'.wait.deadline == s.tasks[id].wait.deadline && (t'.pc == Sleep(s.now + 0.01) || Leaves(t'.pc))
  {
    ReceiveResumed(s, id, until);
    ReceiveStep(s, id, until);
  }

  /** `get_message`: a message to leave with, or a sleep of ten milliseconds. */
  method AwaitMessage(server: Server, id: nat, start: Instant, before: seq<Move>) returns (moves: seq<Move>)
    requires server.State() == Run(start, before) && id < |server.tasks| && server.tasks[id].pc.Receive?
    modifies server, server.redis
    ensures before <= moves && server.State() == Run(start, moves) && id < |server.tasks|
    ensures var t := server.tasks[id];
            && t.wait.deadline == old(server.tasks[id]).wait.deadline
            && (Leaves(t.pc) || (t.pc.Sleep? && old(server.redis.now) + 0.01 <= t.pc.until))
  {
    var until := server.tasks[id].pc.until;
    moves := Suspend(server, id, until, start, before);
    ReadsWell(start, moves, id);
    WaiterSubscribed(start, moves, id);
    ReceivingGoesOn(server.State(), id, until);
    moves := Proceed(server, id, start, moves);
  }

  lemma Wakes(s: Sys, id: nat, until: real)
    requires At(s, id, Sleep(until)) && until <= s.now
    ensures var s' := Resumed(s, id, TimedOut);
            s'.now == s.now && s'.tasks[id] == s.tasks[id].(pc := Poll)
  {
    assert Resumed(s, id, TimedOut) == WakeUp(s, id, until);
  }

  lemma PollingStarts(s: Sys, id: nat)
    requires At(s, id, Deadline)
    ensures Resumed(s, id, TimedOut).tasks[id].pc == Poll
  {
    assert Resumed(s, id, TimedOut) == SetDeadline(s, id);
  }

  method SleepOn(server: Server, id: nat, start: Instant, before: seq<Move>) returns (moves: seq<Move>)
    requires server.State() == Run(start, before) && id < |server.tasks| && server.tasks[id].pc.Sleep?
    modifies server, server.redis
    ensures before <= moves && server.State() == Run(start, moves) && id < |server.tasks|
    ensures var t := server.tasks[id];
            && t.pc.Poll? && t.wait.deadline == old(server.tasks[id]).wait.deadline
            && old(server.tasks[id].pc.until) <= server.redis.now
  {
    var until := server.tasks[id].pc.until;
    moves := Suspend(server, id, until, start, before);
    Wakes(server.State(), id, until);
    moves := Proceed(server, id, start, moves);
  }

  method CheckTime(server: Server, id: nat, start: Instant, before: seq<Move>) returns (moves: seq<Move>)
    requires server.State() == Run(start, before) && id < |server.tasks| && server.tasks[id].pc.Poll?
    modifies server, server.redis
    ensures before <= moves && server.State() == Run(start, moves) && id < |server.tasks|
    ensures var t := server.tasks[id];
            && server.redis.now == old(server.redis.now)
            && t.wait.deadline == old(server.tasks[id]).wait.deadline
            && if server.redis.now < t.wait.deadline then t.pc.Receive? else t.pc == Leaving(WaitTimedOut)
  {
    moves := Proceed(server, id, start, before);
  }

  /** One round of the loop: it leaves, or the deadline is at least ten milliseconds closer. */
  method PollOnce(server: Server, id: nat, start: Instant, before: seq<Move>) returns (moves: seq<Move>)
    requires server.State() == Run(start, before) && id < |server.tasks| && server.tasks[id].pc.Poll?
    modifies server, server.redis
    ensures before <= moves && server.State() == Run(start, moves) && id < |server.tasks|
    ensures var t := server.tasks[id];
            || Leaves(t.pc)
            || (t.pc.Poll? && t.wait.deadline == old(server.tasks[id]).wait.deadline
                && old(server.redis.now) < t.wait.deadline && old(server.redis.now) + 0.01 <= server.redis.now)
  {
    moves := CheckTime(server, id, start, before);
    if server.tasks[id].pc.Receive? {
      moves := AwaitMessage(server, id, start, moves);
      if server.tasks[id].pc.Sleep? {
        moves := SleepOn(server, id, start, moves);
      }
    }
  }

  /** What a wait that ended is due to. */
  ghost predicate Settled(s: Sys, t: Task, out: Outcome) {
    match out
    case Waited(r) => Sourced(s.log, t.req.dedupKey, t.wait, r)
    case WaitTimedOut =>
      && t.wait.gotTime + 30.0 <= t.wait.deadline <= s.now
      && AllExpired(s.log, t.wait.gotAt, t.wait.gotTime, t.req.dedupKey)
      && NoPublish(s.log, t.wait.subAt, t.wait.seen, t.req.dedupKey)
    case _ => false
  }

  lemma EndsSettled(start: Instant, moves: seq<Move>, id: nat)
    requires var s := Run(start, moves);
             id < |s.tasks| && s.tasks[id].pc.Done? && (s.tasks[id].pc.out.Waited? || s.tasks[id].pc.out.WaitTimedOut?)
    ensures var s := Run(start, moves);
            Settled(s, s.tasks[id], s.tasks[id].pc.out)
  {
    RunWaiters(start, moves);
    assert Watched(Run(start, moves), id);
  }

  /** The `finally` block. */
  method LeaveWait(server: Server, id: nat, start: Instant, before: seq<Move>) returns (out: Outcome, moves: seq<Move>)
    requires server.State() == Run(start, before) && id < |server.tasks| && Leaves(server.tasks[id].pc)
    modifies server, server.redis
    ensures before <= moves && server.State() == Run(start, moves)
    ensures id < |server.tasks| && server.tasks[id].pc == Done(out) && id !in server.redis.subs
    ensures Settled(server.State(), server.tasks[id], out)
  {
    out := server.tasks[id].pc.out;
    moves := Suspend(server, id, server.redis.now, start, before);
    moves := Proceed(server, id, start, moves);
    EndsSettled(start, moves, id);
  }

  /** SUBSCRIBE, and then the GET of the stored result. */
  method ReadAfterSubscribing(server: Server, id: nat, start: Instant, before: seq<Move>) returns (moves: seq<Move>)
    requires server.State() == Run(start, before) && At(server.State(), id, Subscribing)
    modifies server, server.redis
    ensures before <= moves && server.State() == Run(start, moves)
    ensures id < |server.tasks| && (server.tasks[id].pc.Deadline? || Leaves(server.tasks[id].pc))
  {
    moves := Proceed(server, id, start, before);
    moves := Suspend(server, id, server.redis.now, start, moves);
    ReadingGoesOn(start, moves, id);
    moves := Proceed(server, id, start, moves);
  }

  method StartPolling(server: Server, id: nat, start: Instant, before: seq<Move>) returns (moves: seq<Move>)
    requires server.State() == Run(start, before) && id < |server.tasks| && server.tasks[id].pc.Deadline?
    modifies server, server.redis
    ensures before <= moves && server.State() == Run(start, moves)
    ensures id < |server.tasks| && server.tasks[id].pc.Poll?
  {
    PollingStarts(server.State(), id);
    moves := Proceed(server, id, start, before);
  }

  /** The wait ends, unsubscribed, with a response that a holder of the lock published after the
      subscription or stored within the minute before; or with none, when 30 seconds have passed,
      all results stored before the subscription was in place have expired, and nothing was
      published between the subscription and the last empty poll. */
  method DedupWait(server: Server, id: nat, start: Instant, before: seq<Move>) returns (out: Outcome, moves: seq<Move>)
    requires server.State() == Run(start, before) && At(server.State(), id, Subscribing)
    modifies server, server.redis
    ensures before <= moves && server.State() == Run(start, moves)
    ensures id < |server.tasks| && server.tasks[id].pc == Done(out) && id !in server.redis.subs
    ensures Settled(server.State(), server.tasks[id], out)
  {
    moves := ReadAfterSubscribing(server, id, start, before);
    if server.tasks[id].pc.Deadline? {
      moves := StartPolling(server, id, start, moves);
      while server.tasks[id].pc.Poll?
        invariant before <= moves && server.State() == Run(start, moves)
        invariant id < |server.tasks| && (server.tasks[id].pc.Poll? || Leaves(server.tasks[id].pc))
        decreases server.tasks[id].pc.Poll?, (server.tasks[id].wait.deadline - server.redis.now) * 100.0
      {
        moves := PollOnce(server, id, start, moves);
      }
    }
    out, moves := LeaveWait(server, id, start, moves);
  }
}
