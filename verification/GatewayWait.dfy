/** Waiters of the dedup protocol over every interleaving: no wakeup is lost, what a waiter
    returns was stored or published by a lock holder, and the wait is bounded. */
module GatewayWait {
  import opened Wrappers
  import opened RedisStore
  import opened Wire
  import opened Responses
  import opened Gateway
  import opened GatewayHistory

  // ----------------------------------------------------------------------------------------
  // Reading the log
  // ----------------------------------------------------------------------------------------

  /** The texts published for a lock from log position `from` on. */
  function Messages(log: seq<Event>, from: nat, lock: string): seq<string> {
    if |log| <= from then []
    else
      var last := log[|log| - 1];
      Messages(log[..|log| - 1], from, lock)
        + if last.Published? && last.lock == lock then [Serialise(last.stored)] else []
  }

  predicate NoPublish(log: seq<Event>, from: nat, to: nat, lock: string) {
    forall p :: from <= p < to && p < |log| && log[p].Published? ==> log[p].lock != lock
  }

  /** Whatever was stored for the lock before position `to` had expired by `time`. */
  predicate AllExpired(log: seq<Event>, to: nat, time: real, lock: string) {
    forall p :: 0 <= p < to && p < |log| && log[p].Stored? && log[p].lock == lock ==> log[p].at + 60.0 <= time
  }

  lemma MessagesSnoc(log: seq<Event>, e: Event, from: nat, lock: string)
    requires from <= |log|
    ensures Messages(log + [e], from, lock)
         == Messages(log, from, lock) + if e.Published? && e.lock == lock then [Serialise(e.stored)] else []
  {
    assert (log + [e])[..|log|] == log;
  }

  lemma {:induction false} NoMessages(log: seq<Event>, from: nat, lock: string)
    requires Messages(log, from, lock) == []
    ensures NoPublish(log, from, |log|, lock)
  {
    if from < |log| {
      var n := |log| - 1;
      NoMessages(log[..n], from, lock);
      forall p | from <= p < |log| && log[p].Published?
        ensures log[p].lock != lock
      {
        assert p < n ==> log[..n][p] == log[p];
      }
    }
  }

  /** The oldest message came from a publication no earlier than `from`. */
  lemma {:induction false} FirstMessage(log: seq<Event>, from: nat, lock: string) returns (p: nat)
    requires Messages(log, from, lock) != []
    ensures from <= p < |log| && log[p].Published? && log[p].lock == lock
    ensures Messages(log, from, lock)[0] == Serialise(log[p].stored)
  {
    var n := |log| - 1;
    var before := Messages(log[..n], from, lock);
    if before == [] {
      p := n;
    } else {
      p := FirstMessage(log[..n], from, lock);
      assert log[..n][p] == log[p];
    }
  }

  // ----------------------------------------------------------------------------------------
  // The result key
  // ----------------------------------------------------------------------------------------

  /** The position of the last store for a lock, or -1. */
  function LastStore(log: seq<Event>, lock: string): (p: int)
    ensures -1 <= p < |log|
    ensures 0 <= p ==> log[p].Stored? && log[p].lock == lock
    ensures forall q :: p < q < |log| && log[q].Stored? ==> log[q].lock != lock
  {
    if log == [] then -1
    else
      var last := log[|log| - 1];
      if last.Stored? && last.lock == lock then |log| - 1 else LastStore(log[..|log| - 1], lock)
  }

  predicate ResultMatches(s: Sys, lock: string) {
    var p := LastStore(s.log, lock);
    if p < 0 then ResultKey(lock) !in s.store
    else
      && ResultKey(lock) in s.store
      && s.store[ResultKey(lock)] == Entry(Text(Serialise(s.log[p].stored)), Some(s.log[p].at + 60.0))
  }

  /** The result key holds the last stored text, with its expiry; stores are in time order. */
  ghost predicate ResultsTracked(s: Sys) {
    && (forall lock :: ResultMatches(s, lock))
    && StoresInOrder(s.log, s.now)
  }

  ghost predicate StoresInOrder(log: seq<Event>, now: Instant) {
    && (forall p :: 0 <= p < |log| && log[p].Stored? ==> log[p].at <= now)
    && (forall p, q :: 0 <= p < q < |log| && log[p].Stored? && log[q].Stored? ==> log[p].at <= log[q].at)
  }

  ghost predicate SameResults(a: map<Key, Entry>, b: map<Key, Entry>) {
    forall lock :: Same(a, b, ResultKey(lock))
  }

  lemma OtherStepsKeepResults(s: Sys, s': Sys, id: nat)
    requires id < |s.tasks| && OnlyTask(s, s', id) && !s.tasks[id].pc.StoreResult?
    ensures SameResults(s.store, s'.store)
    ensures Added(s, s').Some? ==> !Added(s, s').value.Stored?
  {
    forall lock
      ensures Same(s.store, s'.store, ResultKey(lock))
    {
      assert Target(s.tasks[id]) != Some(ResultKey(lock));
    }
  }

  lemma UnstoredKeepsResults(s: Sys, s': Sys)
    requires ResultsTracked(s) && s.now <= s'.now && SameResults(s.store, s'.store)
    requires Grew(s, s') && (Added(s, s').Some? ==> !Added(s, s').value.Stored?)
    ensures ResultsTracked(s')
  {
    forall lock
      ensures ResultMatches(s', lock)
    {
      assert ResultMatches(s, lock);
      assert Same(s.store, s'.store, ResultKey(lock));
      LastStoreUnchanged(s.log, s'.log, lock);
      SameResultMatches(s, s', lock);
    }
    forall p | 0 <= p < |s'.log| && s'.log[p].Stored?
      ensures p < |s.log| && s.log[p] == s'.log[p]
    {
      if s'.log != s.log {
        assert p < |s.log| ==> s'.log[..|s.log|][p] == s.log[p];
      }
    }
  }

  lemma LastStoreUnchanged(log: seq<Event>, log': seq<Event>, lock: string)
    requires log' == log || (|log'| == |log| + 1 && log'[..|log|] == log && !log'[|log|].Stored?)
    ensures LastStore(log', lock) == LastStore(log, lock)
    ensures LastStore(log, lock) >= 0 ==> log'[LastStore(log, lock)] == log[LastStore(log, lock)]
  {
    var p := LastStore(log, lock);
    if log' != log && 0 <= p {
      assert log'[..|log|][p] == log[p];
    }
  }

  lemma LastStoreSnoc(log: seq<Event>, e: Event, lock: string)
    requires e.Stored?
    ensures LastStore(log + [e], lock) == if e.lock == lock then |log| else LastStore(log, lock)
  {
    assert (log + [e])[..|log|] == log;
  }

  lemma SameResultMatches(s: Sys, s': Sys, lock: string)
    requires ResultMatches(s, lock) && Same(s.store, s'.store, ResultKey(lock))
    requires |s.log| <= |s'.log| && s'.log[..|s.log|] == s.log && LastStore(s'.log, lock) == LastStore(s.log, lock)
    ensures ResultMatches(s', lock)
  {
    var p := LastStore(s.log, lock);
    if 0 <= p {
      assert s'.log[..|s.log|][p] == s'.log[p];
    }
  }

  lemma StoreMatches(s: Sys, s': Sys, e: Event, lock: string)
    requires ResultMatches(s, lock) && e.Stored? && s'.log == s.log + [e]
    requires s'.store == s.store[ResultKey(e.lock) := Entry(Text(Serialise(e.stored)), Some(e.at + 60.0))]
    ensures ResultMatches(s', lock)
  {
    LastStoreSnoc(s.log, e, lock);
    if e.lock != lock {
      assert ResultKey(e.lock) != ResultKey(lock);
      SameResultMatches(s, s', lock);
    }
  }

  lemma ResultWrite(s: Sys, id: nat, e: Event)
    requires At(s, id, StoreResult) && e == Stored(id, s.tasks[id].req.dedupKey, s.tasks[id].fetched.value, s.now)
    ensures WriteResult(s, id).log == s.log + [e]
    ensures WriteResult(s, id).store
         == s.store[ResultKey(e.lock) := Entry(Text(Serialise(e.stored)), Some(e.at + 60.0))]
  {
  }

  lemma WritingTracksResult(s: Sys, id: nat, lock: string)
    requires At(s, id, StoreResult) && ResultMatches(s, lock)
    ensures ResultMatches(WriteResult(s, id), lock)
  {
    var e := Stored(id, s.tasks[id].req.dedupKey, s.tasks[id].fetched.value, s.now);
    ResultWrite(s, id, e);
    StoreMatches(s, WriteResult(s, id), e, lock);
  }

  lemma WritingKeepsResults(s: Sys, id: nat)
    requires At(s, id, StoreResult) && ResultsTracked(s)
    ensures ResultsTracked(WriteResult(s, id))
  {
    var s' := WriteResult(s, id);
    forall lock
      ensures ResultMatches(s', lock)
    {
      WritingTracksResult(s, id, lock);
    }
  }

  // ----------------------------------------------------------------------------------------
  // What a waiter knows
  // ----------------------------------------------------------------------------------------

  /** A waiter has read the stored result and found none. */
  predicate ReadNothing(pc: Pc) {
    pc.Deadline? || pc.Poll? || pc.Receive? || pc.Sleep? || Ended(pc) == Some(WaitTimedOut)
  }

  function Ended(pc: Pc): Option<Outcome> {
    match pc
    case Leaving(out) => Some(out)
    case Done(out) => Some(out)
    case _ => None
  }

  /** The mailbox of a waiter holds every message published since it subscribed, and none was
      published up to its last empty poll. */
  predicate Listening(s: Sys, id: nat) {
    id < |s.tasks| &&
    var t := s.tasks[id];
    && id in s.subs && s.subs[id].channel == t.req.dedupKey
    && t.wait.subAt <= t.wait.seen <= |s.log|
    && s.subs[id].messages == Messages(s.log, t.wait.subAt, t.req.dedupKey)
    && NoPublish(s.log, t.wait.subAt, t.wait.seen, t.req.dedupKey)
  }

  /** The response of a waiter was published after it subscribed, or stored before it read the
      result and at most a minute earlier. */
  predicate SourcedAt(log: seq<Event>, lock: string, w: Wait, r: Response, p: nat) {
    && p < |log|
    && (log[p].Published? || log[p].Stored?) && log[p].lock == lock
    && r == FromStore(log[p].stored)
    && (log[p].Published? ==> w.subAt <= p)
    && (log[p].Stored? ==> p < w.gotAt && log[p].at <= w.gotTime < log[p].at + 60.0)
  }

  ghost predicate Sourced(log: seq<Event>, lock: string, w: Wait, r: Response) {
    exists p: nat :: SourcedAt(log, lock, w, r, p)
  }

  /** Ten milliseconds of sleep separate two polls, so polls are bounded by the timeout. */
  predicate Paced(s: Sys, t: Task) {
    var first := t.wait.deadline - 30.0 + t.wait.polls as real * 0.01;
    match t.pc
    case Poll => first <= s.now && t.wait.polls <= 3000
    case Receive(until) => first <= s.now && t.wait.polls < 3000 && until <= t.wait.deadline && until <= s.now + 0.1
    case Sleep(until) => first <= until <= s.now + 0.01 && t.wait.polls <= 3000
    case Leaving(_) => t.wait.polls <= 3000
    case Done(_) => t.wait.polls <= 3000
    case _ => t.wait.polls == 0
  }

  ghost predicate Attentive(s: Sys, id: nat)
    requires id < |s.tasks|
  {
    var t := s.tasks[id];
    var lock := t.req.dedupKey;
    && (Waits(t.pc) ==> Listening(s, id))
    && (ReadNothing(t.pc) ==>
          && t.wait.subAt <= t.wait.gotAt <= |s.log| && t.wait.seen <= |s.log| && t.wait.gotTime <= s.now
          && AllExpired(s.log, t.wait.gotAt, t.wait.gotTime, lock)
          && NoPublish(s.log, t.wait.subAt, t.wait.seen, lock))
    && (ReadNothing(t.pc) && !t.pc.Deadline? ==> t.wait.gotTime + 30.0 <= t.wait.deadline)
    && (Ended(t.pc) == Some(WaitTimedOut) ==> t.wait.deadline <= s.now)
    && (Ended(t.pc).Some? && Ended(t.pc).value.Waited? ==> Sourced(s.log, lock, t.wait, Ended(t.pc).value.response))
    && Paced(s, t)
  }

  // ----------------------------------------------------------------------------------------
  // Preservation
  // ----------------------------------------------------------------------------------------

  /** What a step of another request leaves true of a request that did not move. */
  lemma OthersStayAttentive(s: Sys, s': Sys, id: nat, j: nat)
    requires Watched(s, j) && id < |s.tasks| && OnlyTask(s, s', id) && j != id
    ensures Watched(s', j)
  {
    GrewKeepsEvents(s, s');
    LaterStaysAttentive(s, s', j);
  }

  ghost predicate Watched(s: Sys, j: nat) {
    j < |s.tasks| && Attentive(s, j)
  }

  /** The same, for any growth of the log that delivers what it publishes. */
  lemma LaterStaysAttentive(s: Sys, s': Sys, j: nat)
    requires Watched(s, j) && j < |s'.tasks| && s'.tasks[j] == s.tasks[j] && s.now <= s'.now
    requires Grew(s, s')
    requires j in s.subs ==> j in s'.subs && s'.subs[j] == Delivered(s.subs[j], Added(s, s'))
    ensures Watched(s', j)
  {
    GrewKeepsEvents(s, s');
    var t := s.tasks[j];
    if s'.log != s.log {
      assert s'.log == s.log + [s'.log[|s.log|]];
      if Waits(t.pc) {
        MessagesSnoc(s.log, s'.log[|s.log|], t.wait.subAt, t.req.dedupKey);
      }
    }
    SourcedPersists(s, s', t);
  }

  lemma SourcedPersists(s: Sys, s': Sys, t: Task)
    requires Grew(s, s')
    ensures forall r :: Sourced(s.log, t.req.dedupKey, t.wait, r) ==> Sourced(s'.log, t.req.dedupKey, t.wait, r)
  {
    GrewKeepsEvents(s, s');
    forall r | Sourced(s.log, t.req.dedupKey, t.wait, r)
      ensures Sourced(s'.log, t.req.dedupKey, t.wait, r)
    {
      var p: nat :| SourcedAt(s.log, t.req.dedupKey, t.wait, r, p);
      assert SourcedAt(s'.log, t.req.dedupKey, t.wait, r, p);
    }
  }

  lemma SubscribingAttends(s: Sys, id: nat)
    requires At(s, id, Subscribing) && Watched(s, id)
    ensures Watched(Subscribe(s, id), id)
  {
  }

  /** A live stored text is the last one stored for the lock, and readable. */
  lemma StoredIsSourced(s: Sys, lock: string, w: Wait) returns (c: CachedResponse)
    requires ResultsTracked(s) && History(s) && Alive(s.store, ResultKey(lock), s.now)
    requires w.gotAt == |s.log| && w.gotTime == s.now
    ensures Decoded(Lookup(s.store, ResultKey(lock), s.now)) == Some(c)
    ensures Sourced(s.log, lock, w, FromStore(c))
  {
    assert ResultMatches(s, lock);
    var p := LastStore(s.log, lock);
    assert Authored(s, p);
    c := s.log[p].stored;
    RoundTrip(c);
    assert SourcedAt(s.log, lock, w, FromStore(c), p);
  }

  lemma NothingStored(s: Sys, lock: string)
    requires ResultsTracked(s) && !Alive(s.store, ResultKey(lock), s.now)
    ensures AllExpired(s.log, |s.log|, s.now, lock)
  {
    assert ResultMatches(s, lock);
    var p := LastStore(s.log, lock);
    forall q | 0 <= q < |s.log| && s.log[q].Stored? && s.log[q].lock == lock
      ensures s.log[q].at + 60.0 <= s.now
    {
      assert q <= p;
    }
  }

  /** The stored result is read after subscribing: it is the last one stored for the lock, or
      every one stored so far has expired. */
  lemma ReadingAttends(s: Sys, id: nat)
    requires At(s, id, ResultGet) && Watched(s, id) && ResultsTracked(s) && History(s)
    ensures Watched(ReadResult(s, id), id)
  {
    var s' := ReadResult(s, id);
    var lock := s.tasks[id].req.dedupKey;
    if Alive(s.store, ResultKey(lock), s.now) {
      var c := StoredIsSourced(s, lock, s'.tasks[id].wait);
      assert s'.tasks[id].pc == Leaving(Waited(FromStore(c)));
    } else {
      NothingStored(s, lock);
      assert s'.tasks[id].pc == Deadline;
    }
  }

  lemma DeadlineAttends(s: Sys, id: nat)
    requires At(s, id, Deadline) && Watched(s, id)
    ensures Watched(SetDeadline(s, id), id)
  {
  }

  lemma PollingAttends(s: Sys, id: nat)
    requires At(s, id, Poll) && Watched(s, id)
    ensures Watched(CheckDeadline(s, id), id)
  {
  }

  lemma MessageIsSourced(s: Sys, id: nat) returns (c: CachedResponse)
    requires id < |s.tasks| && Listening(s, id) && History(s) && s.subs[id].messages != []
    ensures Deserialise(s.subs[id].messages[0]) == Some(c)
    ensures Sourced(s.log, s.tasks[id].req.dedupKey, s.tasks[id].wait, FromStore(c))
  {
    var t := s.tasks[id];
    var p := FirstMessage(s.log, t.wait.subAt, t.req.dedupKey);
    assert Authored(s, p);
    c := s.log[p].stored;
    RoundTrip(c);
    assert SourcedAt(s.log, t.req.dedupKey, t.wait, FromStore(c), p);
  }

  lemma ReceivingAttends(s: Sys, id: nat, until: real)
    requires At(s, id, Receive(until)) && Watched(s, id) && History(s)
    ensures Watched(ReceiveMessage(s, id, until), id)
  {
    var s' := ReceiveMessage(s, id, until);
    var t, sub := s.tasks[id], s.subs[id];
    if sub.confirmed && sub.messages != [] {
      var c := MessageIsSourced(s, id);
      assert s'.tasks[id].pc == Leaving(Waited(FromStore(c)));
    } else if sub.confirmed {
      NoMessages(s.log, t.wait.subAt, t.req.dedupKey);
    }
  }

  /** Steps of requests that are not waiting, and of waiters that are waking or leaving. */
  lemma OtherStepsAttend(s: Sys, s': Sys, id: nat)
    requires Watched(s, id) && History(s) && OnlyTask(s, s', id)
    requires !s.tasks[id].pc.Subscribing? && !Waits(s.tasks[id].pc)
    ensures Watched(s', id)
  {
    assert Consistent(s, id);
    GrewKeepsEvents(s, s');
    SourcedPersists(s, s', s.tasks[id]);
  }

  lemma WakingAttends(s: Sys, id: nat, until: real)
    requires At(s, id, Sleep(until)) && Watched(s, id)
    ensures Watched(WakeUp(s, id, until), id)
  {
  }

  // ----------------------------------------------------------------------------------------
  // Whole runs
  // ----------------------------------------------------------------------------------------

  ghost predicate WaitersTracked(s: Sys) {
    ResultsTracked(s) && forall j: nat :: j < |s.tasks| ==> Watched(s, j)
  }

  lemma WaiterStaysWatched(s: Sys, id: nat, reply: VendorReply)
    requires History(s) && WaitersTracked(s) && id < |s.tasks| && Sound(s.tasks[id]) && Proper(reply)
    requires Waits(s.tasks[id].pc)
    ensures Watched(Resumed(s, id, reply), id)
  {
    assert Watched(s, id);
    match s.tasks[id].pc
    case ResultGet => ReadingAttends(s, id);
    case Deadline => DeadlineAttends(s, id);
    case Poll => PollingAttends(s, id);
    case Receive(until) => ReceivingAttends(s, id, until);
    case Sleep(until) => WakingAttends(s, id, until);
  }

  lemma MoverStaysWatched(s: Sys, id: nat, reply: VendorReply)
    requires History(s) && WaitersTracked(s) && id < |s.tasks| && Sound(s.tasks[id]) && Proper(reply)
    ensures Watched(Resumed(s, id, reply), id)
  {
    assert Watched(s, id);
    if s.tasks[id].pc.Subscribing? {
      SubscribingAttends(s, id);
    } else if Waits(s.tasks[id].pc) {
      WaiterStaysWatched(s, id, reply);
    } else {
      OtherStepsAttend(s, Resumed(s, id, reply), id);
    }
  }

  lemma StepKeepsWaiters(s: Sys, id: nat, reply: VendorReply)
    requires AllSound(s) && History(s) && WaitersTracked(s) && id < |s.tasks| && Proper(reply)
    ensures WaitersTracked(Resumed(s, id, reply))
  {
    var s' := Resumed(s, id, reply);
    forall j: nat | j < |s'.tasks|
      ensures Watched(s', j)
    {
      if j == id {
        MoverStaysWatched(s, id, reply);
      } else {
        assert Watched(s, j);
        OthersStayAttentive(s, s', id, j);
      }
    }
    if s.tasks[id].pc.StoreResult? {
      WritingKeepsResults(s, id);
    } else {
      OtherStepsKeepResults(s, s', id);
      UnstoredKeepsResults(s, s');
    }
  }

  /** An interrupted command is stored or published all the same. */
  lemma InterruptKeepsWaiters(s: Sys, id: nat)
    requires AllSound(s) && History(s) && WaitersTracked(s) && id < |s.tasks| && Interruptible(s.tasks[id].pc)
    ensures WaitersTracked(Interrupted(s, id))
  {
    var s' := Interrupted(s, id);
    forall j: nat | j < |s'.tasks|
      ensures Watched(s', j)
    {
      assert Watched(s, j);
      if j == id {
        AbortedStaysWatched(s, s', id);
      } else {
        OthersStayAttentive(s, s', id, j);
      }
    }
    if s.tasks[id].pc.StoreResult? {
      WritingKeepsResults(s, id);
      SameTracked(WriteResult(s, id), s');
    } else {
      OtherStepsKeepResults(s, s', id);
      UnstoredKeepsResults(s, s');
    }
  }

  lemma AbortedStaysWatched(s: Sys, s': Sys, id: nat)
    requires Watched(s, id) && OnlyTask(s, s', id) && Cut(s.tasks[id], s'.tasks[id])
    ensures Watched(s', id)
  {
  }

  lemma SameTracked(s: Sys, s': Sys)
    requires ResultsTracked(s) && s'.log == s.log && s'.store == s.store && s'.now == s.now
    ensures ResultsTracked(s')
  {
    forall lock
      ensures ResultMatches(s', lock)
    {
      assert ResultMatches(s, lock);
    }
  }

  lemma CancelledStaysWatched(s: Sys, id: nat)
    requires AllSound(s) && id < |s.tasks| && Watched(s, id)
    ensures Watched(Cancelled(s, id), id)
  {
  }

  lemma OtherMovesKeepWaiters(s: Sys, m: Move)
    requires AllSound(s) && WaitersTracked(s) && !Acts(s, m)
    ensures WaitersTracked(Apply(s, m))
  {
    var s' := Apply(s, m);
    forall j: nat | j < |s'.tasks|
      ensures Watched(s', j)
    {
      if j < |s.tasks| {
        assert Watched(s, j);
        if (m.Cancel? || m.Interrupt?) && m.id == j {
          CancelledStaysWatched(s, j);
        } else {
          LaterStaysAttentive(s, s', j);
        }
      }
    }
    UnstoredKeepsResults(s, s');
  }

  lemma {:induction false} RunWaiters(start: Instant, moves: seq<Move>)
    ensures WaitersTracked(Run(start, moves))
  {
    if moves != [] {
      var n := |moves| - 1;
      var s, m := Run(start, moves[..n]), moves[n];
      RunWaiters(start, moves[..n]);
      if Acts(s, m) {
        RunHistory(start, moves[..n]);
        if m.Resume? {
          StepKeepsWaiters(s, m.id, m.reply);
        } else {
          InterruptKeepsWaiters(s, m.id);
        }
      } else {
        OtherMovesKeepWaiters(s, m);
      }
    }
  }

  /** No lost wakeup. While a request waits, its mailbox holds every text published for its lock
      since it subscribed. If its wait timed out, at least 30 seconds passed since it read the
      stored result; all results stored before that reading had expired; and every publication
      came before it subscribed or after its last empty poll. */
  lemma NoLostWakeup(start: Instant, moves: seq<Move>, id: nat)
    requires id < |Run(start, moves).tasks|
    ensures var s := Run(start, moves);
            var t := s.tasks[id];
            var lock, w := t.req.dedupKey, t.wait;
            && (Waits(t.pc) ==> id in s.subs && s.subs[id].messages == Messages(s.log, w.subAt, lock))
            && (Ended(t.pc) == Some(WaitTimedOut) ==>
                  && w.gotTime + 30.0 <= w.deadline <= s.now
                  && AllExpired(s.log, w.gotAt, w.gotTime, lock)
                  && (forall p :: 0 <= p < |s.log| && s.log[p].Published? && s.log[p].lock == lock ==>
                        p < w.subAt <= w.gotAt || w.seen <= p))
  {
    RunWaiters(start, moves);
    assert Watched(Run(start, moves), id);
  }

  /** A poll, once the confirmation is consumed. With a message in the mailbox it never comes back
      empty-handed: the request leaves with the oldest one. Without, it lasts until its timeout, and
      then the request pauses. */
  lemma PollTakesOldest(start: Instant, moves: seq<Move>, id: nat, until: real)
    requires var s := Run(start, moves);
             id < |s.tasks| && s.tasks[id].pc == Receive(until) && id in s.subs && s.subs[id].confirmed
    ensures var s := Run(start, moves);
            var s' := ReceiveMessage(s, id, until);
            if s.subs[id].messages != [] then
              exists c :: s.subs[id].messages[0] == Serialise(c) && s'.tasks[id].pc == Leaving(Waited(FromStore(c)))
            else if s.now < until then s' == s
            else s'.tasks[id].pc == Sleep(s.now + 0.01) && s'.subs == s.subs
  {
    RunWaiters(start, moves);
    RunHistory(start, moves);
    var s := Run(start, moves);
    assert Watched(s, id);
    if s.subs[id].messages != [] {
      var t := s.tasks[id];
      var p := FirstMessage(s.log, t.wait.subAt, t.req.dedupKey);
      assert Authored(s, p);
      RoundTrip(s.log[p].stored);
    }
  }

  /** The wait is bounded: at most 3000 polls, whatever the other requests do; none of them lasts
      longer than a tenth of a second or past the deadline, and no pause longer than a hundredth. */
  lemma WaitIsBounded(start: Instant, moves: seq<Move>, id: nat)
    requires id < |Run(start, moves).tasks|
    ensures var t := Run(start, moves).tasks[id];
            && t.wait.polls <= 3000
            && (t.pc.Receive? ==> t.pc.until <= t.wait.deadline && t.pc.until <= Run(start, moves).now + 0.1)
            && (t.pc.Sleep? ==> t.pc.until <= Run(start, moves).now + 0.01)
  {
    RunWaiters(start, moves);
    assert Watched(Run(start, moves), id);
  }

  /** Provenance, freshness and transparency. What a waiter returns was published after it
      subscribed, or stored before it read the result and at most a minute earlier, by a request
      that had taken the same lock and got a 2xx answer; and it is that holder's own response
      but for the `X-Cache` entry. */
  lemma Provenance(start: Instant, moves: seq<Move>, id: nat, r: Response)
    requires var s := Run(start, moves);
             id < |s.tasks| && Ended(s.tasks[id].pc) == Some(Waited(r))
    ensures var s := Run(start, moves);
            var t := s.tasks[id];
            exists p: nat ::
              && SourcedAt(s.log, t.req.dedupKey, t.wait, r, p)
              && Authored(s, p)
              && Ok(r.statusCode)
              && SameButMarked(r, Answered(s.tasks[s.log[p].id]).response)
  {
    RunWaiters(start, moves);
    RunHistory(start, moves);
    var s := Run(start, moves);
    assert Watched(s, id);
    var t := s.tasks[id];
    var p: nat :| SourcedAt(s.log, t.req.dedupKey, t.wait, r, p);
    assert Authored(s, p);
    MarkedOnce(s.log[p].stored);
  }

  /** Only requests that wait, or have ended by leaving or by an exception, have a mailbox. */
  predicate MailboxFits(s: Sys, j: nat) {
    j in s.subs ==> j < |s.tasks| && (Waits(s.tasks[j].pc) || s.tasks[j].pc.Leaving? || s.tasks[j].pc.Done?)
  }

  ghost predicate MailboxesFit(s: Sys) {
    forall j: nat :: MailboxFits(s, j)
  }

  lemma StepKeepsMailbox(s: Sys, s': Sys, id: nat, j: nat)
    requires id < |s.tasks| && OnlyTask(s, s', id) && MailboxFits(s, j)
    ensures MailboxFits(s', j)
  {
    assert j in s'.subs <==> j in Subscribers(s, id);
  }

  lemma QuietKeepsMailboxes(s: Sys, m: Move)
    requires AllSound(s) && MailboxesFit(s) && !Acts(s, m)
    ensures MailboxesFit(Apply(s, m))
  {
    forall j: nat
      ensures MailboxFits(Apply(s, m), j)
    {
      assert MailboxFits(s, j);
    }
  }

  lemma {:induction false} RunMailboxes(start: Instant, moves: seq<Move>)
    ensures MailboxesFit(Run(start, moves))
  {
    if moves != [] {
      var n := |moves| - 1;
      var s, m := Run(start, moves[..n]), moves[n];
      RunMailboxes(start, moves[..n]);
      if Acts(s, m) {
        forall j: nat
          ensures MailboxFits(Run(start, moves), j)
        {
          assert MailboxFits(s, j);
          StepKeepsMailbox(s, Apply(s, m), m.id, j);
        }
      } else {
        QuietKeepsMailboxes(s, m);
      }
    }
  }

  /** Whatever happens next in any run, a request with a mailbox does not end before the mailbox is
      gone: no message, deadline or exception leads past the UNSUBSCRIBE. */
  lemma WaitEndsUnsubscribed(start: Instant, moves: seq<Move>, m: Move, id: nat)
    requires var s := Run(start, moves); id in s.subs && id < |s.tasks| && !s.tasks[id].pc.Done?
    ensures var s' := Run(start, moves + [m]);
            && id < |s'.tasks| && (s'.tasks[id].pc.Done? <==> id !in s'.subs)
  {
    RunMailboxes(start, moves);
    assert MailboxFits(Run(start, moves), id);
    RunSnoc(start, moves, m);
    WaiterKeepsMailbox(Run(start, moves), m, id);
  }

  lemma WaiterKeepsMailbox(s: Sys, m: Move, id: nat)
    requires AllSound(s) && id < |s.tasks| && id in s.subs && (Waits(s.tasks[id].pc) || s.tasks[id].pc.Leaving?)
    ensures var s' := Apply(s, m);
            && id < |s'.tasks| && (s'.tasks[id].pc.Done? <==> id !in s'.subs)
  {
    if Acts(s, m) {
      assert OnlyTask(s, Apply(s, m), m.id);
      assert id in Apply(s, m).subs <==> id in Subscribers(s, m.id);
    }
  }
}
