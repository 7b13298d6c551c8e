/** The proxy pipeline of `src/gateway/routes/proxy.py` with the quota tracker, the response cache
    and request deduplication it drives, as the interleaving of any number of requests.
    A step is one resumption of one request up to its next `await`: it carries out the Redis
    command the request is waiting for and runs on; where the code reads a clock before it sends
    a command, the reading is a step of its own. */
module Gateway {
  import opened Wrappers
  import opened Numbers
  import opened RedisStore
  import opened Wire
  import opened Responses
  import opened Calendar

  const LOCK_TTL := 30
  const RESULT_TTL := 60
  const WAIT_TIMEOUT := 30.0

  datatype QuotaRef = QuotaRef(vendorId: string, keyId: string, period: Period)
  datatype Quota = Quota(ref: QuotaRef, limit: int)

  /** A request once its vendor, endpoint and API key are resolved; `quota` is present when the
      key has a limit and a period. */
  datatype Request = Request(cacheKey: string, dedupKey: string, vendorTtl: int, ttlOverride: Option<int>,
                             quota: Option<Quota>, isAsyncJob: bool)

  /** `resolve_ttl`: an endpoint's override wins over the vendor's TTL, even when it is zero. */
  function CacheTtl(req: Request): int {
    match req.ttlOverride
    case Some(ttl) => ttl
    case None => req.vendorTtl
  }

  /** The Redis keys of the pipeline. A quota key ends in the bucket of its period. */
  datatype Key =
    | CacheKey(name: string)
    | LockKey(name: string)
    | ResultKey(name: string)
    | QuotaKey(ref: QuotaRef, index: int)

  datatype VendorReply =
    | Answer(statusCode: nat, headers: Headers, body: seq<Byte>, at: Stamp)
    | TimedOut
    | Unreachable
    | Broken

  datatype Outcome =
    | Accepted
    | QuotaExceeded(used: int)
    | Hit(response: Response)
    | Waited(response: Response)
    | WaitTimedOut
    | Fetched(response: Response)
    | Refused(response: Response)
    | VendorTimedOut
    | VendorUnreachable
    | Aborted

  /** Where a request is suspended. */
  datatype Pc =
    | QuotaClock
    | QuotaGet(index: int)
    | CacheGet
    | Lock
    | CallVendor
    | Calling
    | CacheSet
    | StoreResult
    | PublishResult
    | IncrClock
    | IncrQuota(index: int)
    | ExpireQuota(index: int)
    | Unlock(out: Outcome)
    | Subscribing
    | ResultGet
    | Deadline
    | Poll
    | Receive(until: real)
    | Sleep(until: real)
    | Leaving(out: Outcome)
    | Done(out: Outcome)

  /** Locals of `dedup_wait`: its deadline, and for the proofs where in the log it subscribed and
      read the stored result, how often it polled, and the log at its last empty poll. */
  datatype Wait = Wait(deadline: real, subAt: nat, gotAt: nat, gotTime: real, polls: nat, seen: nat)

  /** One request in flight or finished; `heldSince` and `acquiredAt` are the time and log
      position of its lock, `fetched` the 2xx answer it is about to store, and `excepted` says that
      an exception at an `await` ended it. */
  datatype Task = Task(req: Request, pc: Pc, heldSince: real, acquiredAt: nat, fetched: Option<CachedResponse>, wait: Wait,
                       excepted: bool)

  /** The history of a run, kept for stating what happened. */
  datatype Event =
    | Acquired(id: nat, lock: string)
    | Orphaned(id: nat, lock: string, at: real)
    | Called(id: nat)
    | Replied(id: nat, reply: VendorReply)
    | CacheWritten(id: nat, name: string, stored: CachedResponse, at: real, ttl: int)
    | CacheFlushed(names: set<string>)
    | Stored(id: nat, lock: string, stored: CachedResponse, at: real)
    | Published(id: nat, lock: string, stored: CachedResponse)
    | Incremented(id: nat, ref: QuotaRef, index: int)

  datatype Sys = Sys(now: Instant, store: map<Key, Entry>, subs: map<nat, Subscription>, tasks: seq<Task>, log: seq<Event>)

  datatype Move =
    | Tick(elapsed: real)
    | Arrive(req: Request)
    | Resume(id: nat, reply: VendorReply)
    | Cancel(id: nat)
    | Interrupt(id: nat)
    | Flush(names: set<string>)

  // ----------------------------------------------------------------------------------------
  // Steps
  // ----------------------------------------------------------------------------------------

  function Initial(start: Instant): Sys {
    Sys(start, map[], map[], [], [])
  }

  function Arrival(req: Request): Task {
    var pc := if req.isAsyncJob then Done(Accepted) else if req.quota.Some? then QuotaClock else CacheGet;
    Task(req, pc, 0.0, 0, None, Wait(0.0, 0, 0, 0.0, 0, 0), false)
  }

  function Goto(s: Sys, id: nat, pc: Pc): Sys
    requires id < |s.tasks|
  {
    s.(tasks := s.tasks[id := s.tasks[id].(pc := pc)])
  }

  /** The locals a suspended request relies on. */
  predicate Sound(t: Task) {
    && (UsesQuota(t.pc) ==> t.req.quota.Some?)
    && (AfterAnswer(t.pc) ==> t.fetched.Some?)
  }

  predicate UsesQuota(pc: Pc) {
    pc.QuotaClock? || pc.QuotaGet? || pc.IncrClock? || pc.IncrQuota? || pc.ExpireQuota?
  }

  /** The block entered by the lock holder: from SET NX to the end of DEL. */
  predicate Holds(pc: Pc) {
    pc.CallVendor? || pc.Calling? || AfterAnswer(pc) || pc.Unlock?
  }

  predicate AfterAnswer(pc: Pc) {
    || pc.CacheSet? || pc.StoreResult? || pc.PublishResult?
    || pc.IncrClock? || pc.IncrQuota? || pc.ExpireQuota?
  }

  predicate Waits(pc: Pc) {
    pc.ResultGet? || pc.Deadline? || pc.Poll? || pc.Receive? || pc.Sleep?
  }

  /** A holder's own answer to its caller. */
  function Answered(t: Task): Outcome
    requires t.fetched.Some?
  {
    Fetched(Response(t.fetched.value.statusCode, t.fetched.value.headers, t.fetched.value.body))
  }

  /** The control flow: where a request suspended at `t.pc` may be suspended next. */
  predicate Flows(t: Task, t': Task) {
    match t.pc
    case QuotaClock => t'.pc.QuotaGet?
    case QuotaGet(_) => t'.pc.CacheGet? || (t'.pc.Done? && t'.pc.out.QuotaExceeded?)
    case CacheGet => t'.pc.Lock? || (t'.pc.Done? && (t'.pc.out.Hit? || t'.pc.out.Aborted?))
    case Lock => t'.pc.CallVendor? || t'.pc.Subscribing?
    case CallVendor => t'.pc.Calling?
    case Calling => t'.pc.CacheSet? || (t'.pc.Unlock? && WithoutAnswer(t'.pc.out))
    case CacheSet => t'.pc.StoreResult?
    case StoreResult => t'.pc.PublishResult?
    case PublishResult => if t.req.quota.Some? then t'.pc.IncrClock? else Finishes(t, t')
    case IncrClock => t'.pc.IncrQuota?
    case IncrQuota(_) => t'.pc.ExpireQuota? || Finishes(t, t')
    case ExpireQuota(_) => Finishes(t, t')
    case Unlock(out) => t'.pc == Done(out)
    case Subscribing => t'.pc.ResultGet?
    case ResultGet => t'.pc.Deadline? || (t'.pc.Leaving? && (t'.pc.out.Waited? || t'.pc.out.Aborted?))
    case Deadline => t'.pc.Poll?
    case Poll => t'.pc.Receive? || t'.pc == Leaving(WaitTimedOut)
    case Receive(_) => t'.pc == t.pc || t'.pc.Sleep? || (t'.pc.Leaving? && (t'.pc.out.Waited? || t'.pc.out.Aborted?))
    case Sleep(_) => t'.pc == t.pc || t'.pc.Poll?
    case Leaving(out) => t'.pc == Done(out)
    case Done(_) => t'.pc == t.pc
  }

  /** How the holder's block ends when there is no 2xx answer. */
  predicate WithoutAnswer(out: Outcome) {
    out.Refused? || out.VendorTimedOut? || out.VendorUnreachable? || out.Aborted?
  }

  predicate Finishes(t: Task, t': Task) {
    t.fetched.Some? && t'.pc == Unlock(Answered(t))
  }

  /** A request whose pending command, once served, leaves something behind. */
  predicate Interruptible(pc: Pc) {
    || pc.Lock? || pc.CacheSet? || pc.StoreResult? || pc.PublishResult? || pc.IncrQuota? || pc.ExpireQuota?
    || pc.Subscribing? || pc.Receive?
  }

  /** Where an exception at its `await` sends a request: through the `finally` block it is in. */
  function AbortedAt(pc: Pc): Pc {
    if Holds(pc) then Unlock(Aborted) else if Waits(pc) then Leaving(Aborted) else Done(Aborted)
  }

  /** The pending command was served, but an exception reached the request before its result. */
  predicate Cut(t: Task, t': Task) {
    Interruptible(t.pc) && t' == t.(pc := AbortedAt(t.pc), excepted := true)
  }

  /** The request went on along the control flow. */
  predicate Went(t: Task, t': Task) {
    Flows(t, t') && t'.excepted == t.excepted
  }

  /** Which locals one step of a request may change. */
  predicate Onward(t: Task, t': Task) {
    && t'.req == t.req && Sound(t')
    && (!t.pc.Lock? ==> t'.heldSince == t.heldSince && t'.acquiredAt == t.acquiredAt)
    && (!(t.pc.Calling? && t'.pc.CacheSet?) ==> t'.fetched == t.fetched)
    && (!t.pc.Subscribing? && !Waits(t.pc) ==> t'.wait == t.wait)
  }

  /** The events a step of request `id` may add to the log. */
  predicate Writes(t: Task, id: nat, e: Event) {
    match e
    case Acquired(i, lock) => i == id && t.pc.Lock? && lock == t.req.dedupKey
    case Orphaned(i, lock, _) => i == id && t.pc.Lock? && lock == t.req.dedupKey
    case Called(i) => i == id && t.pc.CallVendor?
    case Replied(i, _) => i == id && t.pc.Calling?
    case CacheWritten(i, name, c, _, ttl) =>
      i == id && t.pc.CacheSet? && name == t.req.cacheKey && t.fetched == Some(c) && 0 < ttl == CacheTtl(t.req)
    case CacheFlushed(_) => false
    case Stored(i, lock, c, _) => i == id && t.pc.StoreResult? && lock == t.req.dedupKey && t.fetched == Some(c)
    case Published(i, lock, c) => i == id && t.pc.PublishResult? && lock == t.req.dedupKey && t.fetched == Some(c)
    case Incremented(i, ref, index) => i == id && t.pc == IncrQuota(index) && t.req.quota.Some? && ref == t.req.quota.value.ref
  }

  /** A status, headers and body are those of a vendor's answer, without its hop-by-hop headers. */
  ghost predicate Carries(statusCode: nat, headers: Headers, body: seq<Byte>, reply: VendorReply) {
    reply.Answer? && statusCode == reply.statusCode && body == reply.body && EndToEnd(reply.headers, headers)
  }

  /** What is kept for others is a vendor's 2xx answer, with the time it came. */
  ghost predicate Keeps(c: CachedResponse, reply: VendorReply) {
    && Storable(c) && Carries(c.statusCode, c.headers, c.body, reply) && c.cachedAt == reply.at
    && 200 <= reply.statusCode < 300
  }

  /** What a lock holder makes of its vendor's reply. */
  ghost predicate Takes(t: Task, reply: VendorReply) {
    match reply
    case TimedOut => t.pc == Unlock(VendorTimedOut)
    case Unreachable => t.pc == Unlock(VendorUnreachable)
    case Broken => t.pc == Unlock(Aborted)
    case Answer(status, _, _, _) =>
      if 200 <= status < 300 then t.pc.CacheSet? && t.fetched.Some? && Keeps(t.fetched.value, reply)
      else
        && t.pc.Unlock? && t.pc.out.Refused?
        && Carries(t.pc.out.response.statusCode, t.pc.out.response.headers, t.pc.out.response.body, reply)
  }

  /** Every command of a lock holder is recorded as it happens. */
  ghost predicate Recorded(s: Sys, s': Sys, id: nat)
    requires id < |s.tasks| && id < |s'.tasks|
  {
    var t, t', e := s.tasks[id], s'.tasks[id], Added(s, s');
    && (t.pc.Lock? && t'.pc.CallVendor? ==>
          && t'.acquiredAt == |s.log| && t'.heldSince == s.now && e == Some(Acquired(id, t.req.dedupKey)))
    && (t.pc.CallVendor? ==> e == Some(Called(id)))
    && (t.pc.Calling? ==> e.Some? && e.value.Replied? && Takes(t', e.value.reply))
    && (t.fetched.Some? ==> RecordedOutput(t, id, s.now, e))
  }

  predicate RecordedOutput(t: Task, id: nat, now: Instant, e: Option<Event>)
    requires t.fetched.Some?
  {
    var c := t.fetched.value;
    && (t.pc.CacheSet? ==>
          e == if 0 < CacheTtl(t.req) && Ok(c.statusCode)
               then Some(CacheWritten(id, t.req.cacheKey, c, now, CacheTtl(t.req))) else None)
    && (t.pc.StoreResult? ==> e == Some(Stored(id, t.req.dedupKey, c, now)))
    && (t.pc.PublishResult? ==> e == Some(Published(id, t.req.dedupKey, c)))
    && (t.pc.IncrQuota? && t.req.quota.Some? ==> e == Some(Incremented(id, t.req.quota.value.ref, t.pc.index)))
  }

  /** A key's entry, if any, is the same in two stores. */
  predicate Same(a: map<Key, Entry>, b: map<Key, Entry>, k: Key) {
    (k in a <==> k in b) && (k in a ==> a[k] == b[k])
  }

  /** The one key that the pending step of a request may write. */
  function Target(t: Task): Option<Key> {
    match t.pc
    case Lock => Some(LockKey(t.req.dedupKey))
    case CacheSet => Some(CacheKey(t.req.cacheKey))
    case StoreResult => Some(ResultKey(t.req.dedupKey))
    case IncrQuota(index) => if t.req.quota.Some? then Some(QuotaKey(t.req.quota.value.ref, index)) else None
    case ExpireQuota(index) => if t.req.quota.Some? then Some(QuotaKey(t.req.quota.value.ref, index)) else None
    case Unlock(_) => Some(LockKey(t.req.dedupKey))
    case _ => None
  }

  ghost predicate KeptElsewhere(a: map<Key, Entry>, b: map<Key, Entry>, target: Option<Key>) {
    forall k :: target != Some(k) ==> Same(a, b, k)
  }

  /** The log grew by at most one event. */
  predicate Grew(s: Sys, s': Sys) {
    s'.log == s.log || (|s'.log| == |s.log| + 1 && s'.log[..|s.log|] == s.log)
  }

  /** The event a step added. */
  function Added(s: Sys, s': Sys): Option<Event>
  {
    if |s'.log| == |s.log| + 1 then Some(s'.log[|s.log|]) else None
  }

  /** A mailbox after a step that added event `e`: a publication on its channel is appended. */
  function Delivered(sub: Subscription, e: Option<Event>): Subscription {
    if e.Some? && e.value.Published? && e.value.lock == sub.channel
    then sub.(messages := sub.messages + [Serialise(e.value.stored)]) else sub
  }

  predicate MailDelivered(s: Sys, s': Sys, id: nat)
    requires id < |s.tasks|
  {
    && (forall j <- s.subs :: j != id ==> j in s'.subs && s'.subs[j] == Delivered(s.subs[j], Added(s, s')))
    && s'.subs.Keys == Subscribers(s, id)
  }

  /** Who has a mailbox after a step of request `id`. */
  function Subscribers(s: Sys, id: nat): set<nat>
    requires id < |s.tasks|
  {
    if s.tasks[id].pc.Subscribing? then s.subs.Keys + {id}
    else if s.tasks[id].pc.Leaving? then s.subs.Keys - {id}
    else s.subs.Keys
  }

  /** One request moved along the control flow and wrote its target at most; time and all other
      requests stood still. */
  ghost predicate OnlyTask(s: Sys, s': Sys, id: nat)
    requires id < |s.tasks|
  {
    && |s'.tasks| == |s.tasks| && s'.now == s.now
    && Onward(s.tasks[id], s'.tasks[id]) && (Went(s.tasks[id], s'.tasks[id]) || Cut(s.tasks[id], s'.tasks[id]))
    && Grew(s, s') && (Added(s, s').Some? ==> Writes(s.tasks[id], id, Added(s, s').value))
    && Recorded(s, s', id) && MailDelivered(s, s', id) && KeptElsewhere(s.store, s'.store, Target(s.tasks[id]))
    && forall j :: 0 <= j < |s.tasks| && j != id ==> s'.tasks[j] == s.tasks[j]
  }

  /** A stretch that was not interrupted. */
  ghost predicate Stretch(s: Sys, s': Sys, id: nat)
    requires id < |s.tasks|
  {
    OnlyTask(s, s', id) && Went(s.tasks[id], s'.tasks[id])
  }

  predicate At(s: Sys, id: nat, pc: Pc) {
    id < |s.tasks| && Sound(s.tasks[id]) && s.tasks[id].pc == pc
  }

  predicate Proper(reply: VendorReply) {
    reply.Answer? ==> DistinctKeys(reply.headers) && ValidStamp(reply.at)
  }

  /** `check_quota` up to the GET: the clock picks the bucket. */
  function ReadQuotaClock(s: Sys, id: nat): (s': Sys)
    requires At(s, id, QuotaClock)
    ensures Stretch(s, s', id)
  {
    Goto(s, id, QuotaGet(PeriodIndex(s.tasks[id].req.quota.value.ref.period, s.now)))
  }

  function CheckQuota(s: Sys, id: nat, index: int): (s': Sys)
    requires At(s, id, QuotaGet(index))
    ensures Stretch(s, s', id)
  {
    var quota := s.tasks[id].req.quota.value;
    var current := CountAt(s.store, QuotaKey(quota.ref, index), s.now);
    Goto(s, id, if current < quota.limit then CacheGet else Done(QuotaExceeded(current)))
  }

  /** What a stored text stands for, when it can be read. */
  function Decoded(v: Option<Value>): Option<CachedResponse> {
    match v
    case Some(Text(raw)) => Deserialise(raw)
    case _ => None
  }

  function CheckCache(s: Sys, id: nat): (s': Sys)
    requires At(s, id, CacheGet)
    ensures Stretch(s, s', id)
  {
    var raw := Lookup(s.store, CacheKey(s.tasks[id].req.cacheKey), s.now);
    if raw.None? then Goto(s, id, Lock)
    else if Decoded(raw).None? then Goto(s, id, Done(Aborted))
    else Goto(s, id, Done(Hit(FromStore(Decoded(raw).value))))
  }

  /** `_acquire_lock` and the branch on its result. */
  function TakeLock(s: Sys, id: nat): (s': Sys)
    requires At(s, id, Lock)
    ensures Stretch(s, s', id)
  {
    var key := LockKey(s.tasks[id].req.dedupKey);
    if Alive(s.store, key, s.now) then Goto(s, id, Subscribing)
    else
      s.(store := SetEx(s.store, key, Text("1"), s.now, LOCK_TTL),
         tasks := s.tasks[id := s.tasks[id].(pc := CallVendor, heldSince := s.now, acquiredAt := |s.log|)],
         log := s.log + [Acquired(id, key.name)])
  }

  function StartCall(s: Sys, id: nat): (s': Sys)
    requires At(s, id, CallVendor)
    ensures Stretch(s, s', id)
  {
    Goto(s, id, Calling).(log := s.log + [Called(id)])
  }

  function EndCall(s: Sys, id: nat, reply: VendorReply): (s': Sys)
    requires At(s, id, Calling) && Proper(reply)
    ensures Stretch(s, s', id)
  {
    var t' := match reply
              case TimedOut => s.tasks[id].(pc := Unlock(VendorTimedOut))
              case Unreachable => s.tasks[id].(pc := Unlock(VendorUnreachable))
              case Broken => s.tasks[id].(pc := Unlock(Aborted))
              case Answer(status, headers, body, at) => TakeAnswer(s.tasks[id], status, headers, body, at);
    s.(tasks := s.tasks[id := t'], log := s.log + [Replied(id, reply)])
  }

  /** A 2xx answer is kept; any other one is passed on. */
  function TakeAnswer(t: Task, status: nat, headers: Headers, body: seq<Byte>, at: Stamp): (t': Task)
    requires t.pc.Calling? && Sound(t) && DistinctKeys(headers) && ValidStamp(at)
    ensures Takes(t', Answer(status, headers, body, at)) && Onward(t, t') && t'.excepted == t.excepted
  {
    FilterIsEndToEnd(headers);
    if Ok(status) then
      AnswerStorable(status, headers, body, at);
      t.(pc := CacheSet, fetched := Some(ToStore(status, headers, body, at)))
    else t.(pc := Unlock(Refused(Direct(status, headers, body))))
  }

  /** `set_cached`: only 2xx answers with a positive TTL are stored. */
  function WriteCache(s: Sys, id: nat): (s': Sys)
    requires At(s, id, CacheSet)
    ensures Stretch(s, s', id)
  {
    var t := s.tasks[id];
    if CacheTtl(t.req) <= 0 || !Ok(t.fetched.value.statusCode) then Goto(s, id, StoreResult) else PutCache(s, id)
  }

  function PutCache(s: Sys, id: nat): (s': Sys)
    requires At(s, id, CacheSet) && 0 < CacheTtl(s.tasks[id].req) && Ok(s.tasks[id].fetched.value.statusCode)
    ensures Stretch(s, s', id)
  {
    var t := s.tasks[id];
    var c, ttl := t.fetched.value, CacheTtl(t.req);
    Goto(Kept(s, id, CacheKey(t.req.cacheKey), c, ttl, CacheWritten(id, t.req.cacheKey, c, s.now, ttl)), id, StoreResult)
  }

  /** A response is stored under a key, as event `e` records. */
  function Kept(s: Sys, id: nat, key: Key, c: CachedResponse, ttl: int, e: Event): (s': Sys)
    requires id < |s.tasks| && (s.tasks[id].pc.CacheSet? || s.tasks[id].pc.StoreResult?) && !e.Published?
    ensures s'.tasks == s.tasks && s'.now == s.now && Grew(s, s') && Added(s, s') == Some(e)
    ensures MailDelivered(s, s', id) && KeptElsewhere(s.store, s'.store, Some(key))
  {
    s.(store := SetEx(s.store, key, Text(Serialise(c)), s.now, ttl), log := s.log + [e])
  }

  /** `dedup_publish`, first half. */
  function WriteResult(s: Sys, id: nat): (s': Sys)
    requires At(s, id, StoreResult)
    ensures Stretch(s, s', id)
  {
    var t := s.tasks[id];
    var c := t.fetched.value;
    Goto(Kept(s, id, ResultKey(t.req.dedupKey), c, RESULT_TTL, Stored(id, t.req.dedupKey, c, s.now)), id, PublishResult)
  }

  /** `dedup_publish`, second half, and the branch on the quota. */
  function SendResult(s: Sys, id: nat): (s': Sys)
    requires At(s, id, PublishResult)
    ensures Stretch(s, s', id)
  {
    var t := s.tasks[id];
    Goto(s, id, if t.req.quota.Some? then IncrClock else Unlock(Answered(t))).(
      subs := Publish(s.subs, t.req.dedupKey, Serialise(t.fetched.value)),
      log := s.log + [Published(id, t.req.dedupKey, t.fetched.value)])
  }

  /** `increment_quota`: clock, INCR, and EXPIRE on the first write. */
  function ReadIncrClock(s: Sys, id: nat): (s': Sys)
    requires At(s, id, IncrClock)
    ensures Stretch(s, s', id)
  {
    Goto(s, id, IncrQuota(PeriodIndex(s.tasks[id].req.quota.value.ref.period, s.now)))
  }

  function Increment(s: Sys, id: nat, index: int): (s': Sys)
    requires At(s, id, IncrQuota(index))
    ensures Stretch(s, s', id)
  {
    var t := s.tasks[id];
    var key := QuotaKey(t.req.quota.value.ref, index);
    var first := CountAt(s.store, key, s.now) + 1 == 1;
    Goto(s, id, if first then ExpireQuota(index) else Unlock(Answered(t))).(
      store := Incr(s.store, key, s.now),
      log := s.log + [Incremented(id, key.ref, index)])
  }

  function SetQuotaExpiry(s: Sys, id: nat, index: int): (s': Sys)
    requires At(s, id, ExpireQuota(index))
    ensures Stretch(s, s', id)
  {
    var t := s.tasks[id];
    var ref := t.req.quota.value.ref;
    Goto(s, id, Unlock(Answered(t))).(
      store := Expire(s.store, QuotaKey(ref, index), s.now, PeriodTtl(ref.period)))
  }

  /** `_release_lock`. */
  function ReleaseLock(s: Sys, id: nat, out: Outcome): (s': Sys)
    requires At(s, id, Unlock(out))
    ensures Stretch(s, s', id)
  {
    Goto(s, id, Done(out)).(store := s.store - {LockKey(s.tasks[id].req.dedupKey)})
  }

  /** `dedup_wait`: subscribe, read the stored result, then poll until the deadline. */
  function Subscribe(s: Sys, id: nat): (s': Sys)
    requires At(s, id, Subscribing)
    ensures Stretch(s, s', id)
  {
    var t := s.tasks[id];
    s.(subs := s.subs[id := Subscription(t.req.dedupKey, false, [])],
       tasks := s.tasks[id := t.(pc := ResultGet, wait := t.wait.(subAt := |s.log|, seen := |s.log|))])
  }

  function ReadResult(s: Sys, id: nat): (s': Sys)
    requires At(s, id, ResultGet)
    ensures Stretch(s, s', id)
  {
    var t := s.tasks[id];
    var raw := Lookup(s.store, ResultKey(t.req.dedupKey), s.now);
    var pc := if raw.None? then Deadline
              else if Decoded(raw).None? then Leaving(Aborted)
              else Leaving(Waited(FromStore(Decoded(raw).value)));
    s.(tasks := s.tasks[id := t.(pc := pc, wait := t.wait.(gotAt := |s.log|, gotTime := s.now))])
  }

  function SetDeadline(s: Sys, id: nat): (s': Sys)
    requires At(s, id, Deadline)
    ensures Stretch(s, s', id)
  {
    var t := s.tasks[id];
    s.(tasks := s.tasks[id := t.(pc := Poll, wait := t.wait.(deadline := s.now + WAIT_TIMEOUT))])
  }

  function CheckDeadline(s: Sys, id: nat): (s': Sys)
    requires At(s, id, Poll)
    ensures Stretch(s, s', id)
  {
    var remaining := s.tasks[id].wait.deadline - s.now;
    Goto(s, id, if remaining <= 0.0 then Leaving(WaitTimedOut) else Receive(s.now + Min(remaining, 0.1)))
  }

  /** `get_message`: the first poll swallows the subscription's confirmation; a later one returns
      the oldest message, or nothing once its own timeout has passed. */
  function ReceiveMessage(s: Sys, id: nat, until: real): (s': Sys)
    requires At(s, id, Receive(until))
    ensures Stretch(s, s', id)
  {
    var t := s.tasks[id];
    if id !in s.subs then s
    else
      var sub := s.subs[id];
      if !sub.confirmed then
        s.(subs := s.subs[id := sub.(confirmed := true)],
           tasks := s.tasks[id := t.(pc := Sleep(s.now + 0.01), wait := t.wait.(polls := t.wait.polls + 1))])
      else if sub.messages != [] then
        var c := Deserialise(sub.messages[0]);
        Goto(s, id, Leaving(if c.None? then Aborted else Waited(FromStore(c.value)))).(
          subs := s.subs[id := sub.(messages := sub.messages[1..])])
      else if until <= s.now then
        s.(tasks := s.tasks[id := t.(pc := Sleep(s.now + 0.01),
                                     wait := t.wait.(polls := t.wait.polls + 1, seen := |s.log|))])
      else s
  }

  function WakeUp(s: Sys, id: nat, until: real): (s': Sys)
    requires At(s, id, Sleep(until))
    ensures Stretch(s, s', id)
  {
    if until <= s.now then Goto(s, id, Poll) else s
  }

  function Unsubscribe(s: Sys, id: nat, out: Outcome): (s': Sys)
    requires At(s, id, Leaving(out))
    ensures Stretch(s, s', id)
  {
    Goto(s, id, Done(out)).(subs := s.subs - {id})
  }

  /** A request's next step; a request that is blocked, or done, stays as it is. */
  function Resumed(s: Sys, id: nat, reply: VendorReply): (s': Sys)
    requires id < |s.tasks| && Sound(s.tasks[id]) && Proper(reply)
    ensures Stretch(s, s', id)
  {
    match s.tasks[id].pc
    case QuotaClock => ReadQuotaClock(s, id)
    case QuotaGet(index) => CheckQuota(s, id, index)
    case CacheGet => CheckCache(s, id)
    case Lock => TakeLock(s, id)
    case CallVendor => StartCall(s, id)
    case Calling => EndCall(s, id, reply)
    case CacheSet => WriteCache(s, id)
    case StoreResult => WriteResult(s, id)
    case PublishResult => SendResult(s, id)
    case IncrClock => ReadIncrClock(s, id)
    case IncrQuota(index) => Increment(s, id, index)
    case ExpireQuota(index) => SetQuotaExpiry(s, id, index)
    case Unlock(out) => ReleaseLock(s, id, out)
    case Subscribing => Subscribe(s, id)
    case ResultGet => ReadResult(s, id)
    case Deadline => SetDeadline(s, id)
    case Poll => CheckDeadline(s, id)
    case Receive(until) => ReceiveMessage(s, id, until)
    case Sleep(until) => WakeUp(s, id, until)
    case Leaving(out) => Unsubscribe(s, id, out)
    case Done(_) => s
  }

  /** Request `id` leaves by an exception. */
  function Except(s: Sys, id: nat): Sys
    requires id < |s.tasks|
  {
    s.(tasks := s.tasks[id := s.tasks[id].(pc := AbortedAt(s.tasks[id].pc), excepted := true)])
  }

  /** An exception raised at the current `await`: the `finally` blocks still run. A request that
      is already unlocking or unsubscribing finishes that command. */
  function Cancelled(s: Sys, id: nat): (s': Sys)
    requires id < |s.tasks| && Sound(s.tasks[id])
    ensures AllSound(s) ==> AllSound(s')
  {
    var pc := s.tasks[id].pc;
    if pc.Done? || pc.Unlock? || pc.Leaving? then s else Except(s, id)
  }

  /** SET NX was served, but the exception comes before `acquired` is assigned: no one will release
      the lock. */
  function OrphanLock(s: Sys, id: nat): (s': Sys)
    requires At(s, id, Lock)
    ensures OnlyTask(s, s', id)
  {
    var key := LockKey(s.tasks[id].req.dedupKey);
    var s' := Except(s, id);
    if Alive(s.store, key, s.now) then s'
    else s'.(store := SetEx(s.store, key, Text("1"), s.now, LOCK_TTL), log := s.log + [Orphaned(id, key.name, s.now)])
  }

  /** The command served and the request aborted; any command but SET NX leaves behind what it
      leaves in a run without the exception. */
  function Interrupted(s: Sys, id: nat): (s': Sys)
    requires id < |s.tasks| && Sound(s.tasks[id]) && Interruptible(s.tasks[id].pc)
    ensures OnlyTask(s, s', id) && Cut(s.tasks[id], s'.tasks[id])
  {
    var t := s.tasks[id];
    if t.pc.Lock? then OrphanLock(s, id)
    else Resumed(s, id, Broken).(tasks := Except(s, id).tasks)
  }

  function CacheKeys(names: set<string>): set<Key> {
    set n | n in names :: CacheKey(n)
  }

  predicate AllSound(s: Sys) {
    forall id :: 0 <= id < |s.tasks| ==> Sound(s.tasks[id])
  }

  /** A move that is a step of one request. */
  predicate Acts(s: Sys, m: Move) {
    || (m.Resume? && m.id < |s.tasks| && Proper(m.reply))
    || (m.Interrupt? && m.id < |s.tasks| && Interruptible(s.tasks[m.id].pc))
  }

  function Apply(s: Sys, m: Move): (s': Sys)
    requires AllSound(s)
    ensures AllSound(s') && (Acts(s, m) ==> OnlyTask(s, s', m.id))
  {
    match m
    case Tick(elapsed) => if 0.0 <= elapsed then s.(now := s.now + elapsed) else s
    case Arrive(req) => s.(tasks := s.tasks + [Arrival(req)])
    case Resume(id, reply) => if id < |s.tasks| && Proper(reply) then Resumed(s, id, reply) else s
    case Cancel(id) => if id < |s.tasks| then Cancelled(s, id) else s
    case Interrupt(id) =>
      if Acts(s, m) then Interrupted(s, id) else if id < |s.tasks| then Cancelled(s, id) else s
    case Flush(names) => s.(store := s.store - CacheKeys(names), log := s.log + [CacheFlushed(names)])
  }

  /** The state after any sequence of moves: every interleaving is one. */
  function Run(start: Instant, moves: seq<Move>): (s: Sys)
    ensures AllSound(s)
  {
    if moves == [] then Initial(start) else Apply(Run(start, moves[..|moves| - 1]), moves[|moves| - 1])
  }

  lemma RunSnoc(start: Instant, moves: seq<Move>, m: Move)
    ensures Run(start, moves + [m]) == Apply(Run(start, moves), m)
  {
    assert (moves + [m])[..|moves|] == moves;
  }
}
