/** The token bucket of `src/gateway/middleware/rate_limit.py`: the Lua script as an in-place
    update of one Redis hash, and what its verdicts mean over whole runs of calls.
    Every call carries the clock value its caller read (`now`) and the Redis time at which the
    script ran (`served`), so calls may reach Redis late and out of order. */
module TokenBucket {
  import opened Numbers

  /** One rate-limit key: absent, or a hash with a refill stamp and an expiry time. */
  datatype Cell = Vacant | Held(tokens: real, lastRefill: real, expiresAt: real)

  /** One evaluation of the script; `capacity` and `rate` come from a requests-per-minute cap. */
  datatype Call = Call(capacity: real, rate: real, now: real, served: real)

  function CallOf(rpm: int, now: real, served: real): (c: Call)
    requires 0 < rpm
    ensures Sane(c)
  {
    Call(rpm as real, rpm as real / 60.0, now, served)
  }

  predicate Sane(c: Call) {
    1.0 <= c.capacity == 60.0 * c.rate
  }

  /** What Redis shows the script at time `served`; `expiring` is false for the ideal bucket. */
  function Visible(cell: Cell, served: real, expiring: bool): Cell {
    if expiring && cell.Held? && cell.expiresAt <= served then Vacant else cell
  }

  function Refilled(cell: Cell, capacity: real, rate: real, now: real): real {
    match cell
    case Vacant => Min(capacity, capacity + rate * (now - now))
    case Held(tokens, last, _) => Min(capacity, tokens + rate * (now - last))
  }

  function Ttl(capacity: real, rate: real): int
    requires rate != 0.0
  {
    Ceil(capacity / rate) + 1
  }

  /** `r` is the least whole number of seconds in which `rate` refills one token: a second less would not. */
  predicate LeastWait(rate: real, r: int) {
    1.0 <= rate * r as real < 1.0 + rate
  }

  /** The hash fields and expiry of one key, rewritten by every call of the script. */
  class BucketKey {
    var present: bool
    var tokens: real
    var lastRefill: real
    var expiresAt: real

    function Value(): Cell
      reads this
    {
      if present then Held(tokens, lastRefill, expiresAt) else Vacant
    }

    constructor ()
      ensures Value() == Vacant
    {
      present := false;
    }

    /** The Lua script: HMGET, lazy refill, conditional spend, HSET, EXPIRE. */
    method Eval(capacity: real, refillRate: real, now: real, requested: real, served: real)
      returns (reply: int)
      requires refillRate != 0.0
      modifies this
      ensures var level := Refilled(Visible(old(Value()), served, true), capacity, refillRate, now);
              && reply == (if requested <= level then 1 else 0)
              && Value() == Held(if reply == 1 then level - requested else level, now,
                                 served + Ttl(capacity, refillRate) as real)
    {
      if present && expiresAt <= served {
        present := false;
      }
      var held := if present then tokens else capacity;
      var last := if present then lastRefill else now;
      var elapsed := now - last;
      var newTokens := Min(capacity, held + refillRate * elapsed);
      present := true;
      expiresAt := served + Ttl(capacity, refillRate) as real;
      lastRefill := now;
      if newTokens >= requested {
        newTokens := newTokens - requested;
        tokens := newTokens;
        reply := 1;
      } else {
        tokens := newTokens;
        reply := 0;
      }
    }

    /** `check_rate_limit` for one key: a denied caller is told the least whole number of seconds
        that refills one token at `rpm` tokens a minute. */
    method CheckRateLimit(rpm: int, now: real, served: real) returns (allowed: bool, retryAfter: int)
      requires 0 < rpm
      modifies this
      ensures var call := Call(rpm as real, rpm as real / 60.0, now, served);
              && allowed == Granted(old(Value()), call, true)
              && Value() == After(old(Value()), call, true)
      ensures allowed ==> retryAfter == 0
      ensures !allowed ==> LeastWait(rpm as real / 60.0, retryAfter)
    {
      var capacity := rpm as real;
      var refillRate := rpm as real / 60.0;
      var reply := Eval(capacity, refillRate, now, 1.0, served);
      allowed := reply != 0;
      retryAfter := if allowed then 0 else Ceil(1.0 / refillRate);
      CeilingIsLeastWait(refillRate);
    }
  }

  lemma CeilingIsLeastWait(rate: real)
    requires 0.0 < rate
    ensures LeastWait(rate, Ceil(1.0 / rate))
  {
    QuotientTimes(1.0, rate);
    LeastWaitOf(rate, 1.0 / rate, Ceil(1.0 / rate));
  }

  lemma LeastWaitOf(rate: real, wait: real, r: int)
    requires 0.0 < rate && rate * wait == 1.0 && (r - 1) as real < wait <= r as real
    ensures LeastWait(rate, r)
  {
    UnitProduct(rate, wait, r as real - wait, r as real);
  }

  lemma UnitProduct(rate: real, wait: real, rest: real, sum: real)
    requires 0.0 < rate && rate * wait == 1.0 && 0.0 <= rest < 1.0 && sum == wait + rest
    ensures 1.0 <= rate * sum < 1.0 + rate
  {
    var product := rate * rest;
    assert rate * sum == rate * wait + product by { Distributes(rate, wait, rest); }
    assert 0.0 <= product by { NonNegativeProduct(rate, rest); }
    assert product < rate by { StrictlyGrows(rate, rest, 1.0); }
  }

  // ----------------------------------------------------------------------------------------
  // Runs of calls on one key
  // ----------------------------------------------------------------------------------------

  function LevelAt(cell: Cell, c: Call, expiring: bool): real {
    Refilled(Visible(cell, c.served, expiring), c.capacity, c.rate, c.now)
  }

  predicate Granted(cell: Cell, c: Call, expiring: bool) {
    1.0 <= LevelAt(cell, c, expiring)
  }

  function After(cell: Cell, c: Call, expiring: bool): Cell
    requires Sane(c)
  {
    var level := LevelAt(cell, c, expiring);
    Held(if 1.0 <= level then level - 1.0 else level, c.now, c.served + Ttl(c.capacity, c.rate) as real)
  }

  datatype Trace = Trace(cell: Cell, verdicts: seq<bool>)

  predicate AllSane(calls: seq<Call>) {
    forall i :: 0 <= i < |calls| ==> Sane(calls[i])
  }

  /** The key and the verdicts after a run that starts without the key. */
  function Run(calls: seq<Call>, expiring: bool): (t: Trace)
    requires AllSane(calls)
    ensures |t.verdicts| == |calls|
    ensures t.cell.Held? <==> calls != []
  {
    if calls == [] then Trace(Vacant, [])
    else
      var n := |calls| - 1;
      var before := Run(calls[..n], expiring);
      Trace(After(before.cell, calls[n], expiring), before.verdicts + [Granted(before.cell, calls[n], expiring)])
  }

  lemma RunSnoc(calls: seq<Call>, c: Call, expiring: bool)
    requires AllSane(calls) && Sane(c)
    ensures var before := Run(calls, expiring);
            Run(calls + [c], expiring)
              == Trace(After(before.cell, c, expiring), before.verdicts + [Granted(before.cell, c, expiring)])
  {
    assert (calls + [c])[..|calls|] == calls;
  }

  /** Calls are served in the order listed and each reaches Redis at most one second late. */
  predicate Prompt(calls: seq<Call>) {
    && (forall i :: 0 <= i < |calls| ==> calls[i].now <= calls[i].served <= calls[i].now + 1.0)
    && (forall i, j :: 0 <= i < j < |calls| ==> calls[i].served <= calls[j].served)
  }

  predicate Ordered(calls: seq<Call>) {
    forall i, j :: 0 <= i < j < |calls| ==> calls[i].now <= calls[j].now
  }

  predicate FixedRate(calls: seq<Call>, rate: real) {
    forall i :: 0 <= i < |calls| ==> calls[i].rate == rate
  }

  // ----------------------------------------------------------------------------------------
  // Key expiry is unobservable
  // ----------------------------------------------------------------------------------------

  /** In exact arithmetic every key lives 61 seconds past its last call, whatever the cap. */
  lemma TtlIsSixtyOne(c: Call)
    requires Sane(c)
    ensures Ttl(c.capacity, c.rate) == 61
  {
    QuotientOfProduct(60.0, c.rate);
  }

  /** What a stored cell says about the call that wrote it. With ordered clocks the level is
      never negative; with one rate it is never below what refilling up to the time of service
      restores to zero. */
  ghost predicate Floored(cell: Cell, last: Call, ordered: bool) {
    && cell.Held? && Sane(last)
    && cell.lastRefill == last.now <= last.served <= last.now + 1.0
    && cell.expiresAt == last.served + 61.0
    && (if ordered then 0.0 <= cell.tokens else 0.0 <= cell.tokens + last.rate * (last.served - last.now))
  }

  lemma FirstCallFloored(c: Call, ordered: bool)
    requires Sane(c) && c.now <= c.served <= c.now + 1.0
    ensures Floored(After(Vacant, c, false), c, ordered)
  {
    TtlIsSixtyOne(c);
    NonNegativeProduct(c.rate, c.served - c.now);
  }

  lemma LateRefill(rate: real, tokens: real, last: Call, c: Call)
    requires 0.0 <= rate && last.served <= c.served
    requires 0.0 <= tokens + rate * (last.served - last.now)
    ensures 0.0 <= tokens + rate * (c.now - last.now) + rate * (c.served - c.now)
  {
    ProductGrows(rate, last.served - last.now, c.served - last.now);
    Distributes(rate, c.now - last.now, c.served - c.now);
    assert c.now - last.now + (c.served - c.now) == c.served - last.now;
  }

  /** Spending one unit, or none, of a level capped above one keeps any floor. */
  lemma SpendKeepsFloor(capacity: real, raw: real, slack: real)
    requires 1.0 <= capacity && 0.0 <= slack && 0.0 <= raw + slack
    ensures var level := Min(capacity, raw);
            0.0 <= (if 1.0 <= level then level - 1.0 else level) + slack
  {
  }

  lemma OrderedRefill(rate: real, tokens: real, last: real, now: real)
    requires 0.0 <= rate && last <= now && 0.0 <= tokens
    ensures 0.0 <= tokens + rate * (now - last)
  {
    assert 0.0 <= rate * (now - last) by {
      NonNegativeProduct(rate, now - last);
    }
  }

  lemma RawLevel(cell: Cell, last: Call, c: Call, ordered: bool) returns (raw: real, slack: real)
    requires Floored(cell, last, ordered)
    requires Sane(c) && c.now <= c.served && last.served <= c.served
    requires if ordered then last.now <= c.now else last.rate == c.rate
    ensures LevelAt(cell, c, false) == Min(c.capacity, raw) && 0.0 <= slack && 0.0 <= raw + slack
    ensures slack == if ordered then 0.0 else c.rate * (c.served - c.now)
  {
    raw := cell.tokens + c.rate * (c.now - last.now);
    if ordered {
      slack := 0.0;
      OrderedRefill(c.rate, cell.tokens, last.now, c.now);
    } else {
      slack := c.rate * (c.served - c.now);
      NonNegativeProduct(c.rate, c.served - c.now);
      LateRefill(c.rate, cell.tokens, last, c);
    }
  }

  lemma FloorKept(cell: Cell, last: Call, c: Call, ordered: bool)
    requires Floored(cell, last, ordered)
    requires Sane(c) && c.now <= c.served <= c.now + 1.0 && last.served <= c.served
    requires if ordered then last.now <= c.now else last.rate == c.rate
    ensures Floored(After(cell, c, false), c, ordered)
  {
    TtlIsSixtyOne(c);
    var raw, slack := RawLevel(cell, last, c, ordered);
    SpendKeepsFloor(c.capacity, raw, slack);
  }

  lemma RefilledAfterAMinute(rate: real, tokens: real, last: Call, c: Call, ordered: bool)
    requires 0.0 <= rate && last.now <= last.served && last.served + 60.0 <= c.now
    requires if ordered then 0.0 <= tokens else 0.0 <= tokens + rate * (last.served - last.now)
    ensures 60.0 * rate <= tokens + rate * (c.now - last.now)
  {
    ProductGrows(rate, 60.0, c.now - last.served);
    Distributes(rate, c.now - last.served, last.served - last.now);
    assert c.now - last.served + (last.served - last.now) == c.now - last.now;
    NonNegativeProduct(rate, last.served - last.now);
  }

  /** A key that has reached its expiry time would be full again had it been kept. */
  lemma FullByExpiry(cell: Cell, last: Call, c: Call, ordered: bool)
    requires Floored(cell, last, ordered)
    requires Sane(c) && c.now <= c.served <= c.now + 1.0
    requires ordered || last.rate == c.rate
    requires cell.expiresAt <= c.served
    ensures LevelAt(cell, c, false) == c.capacity == LevelAt(cell, c, true)
  {
    RefilledAfterAMinute(c.rate, cell.tokens, last, c, ordered);
    assert c.rate * (c.now - c.now) == 0.0;
  }

  lemma {:induction false} RunFloored(calls: seq<Call>, ordered: bool)
    requires AllSane(calls) && Prompt(calls) && calls != []
    requires if ordered then Ordered(calls) else FixedRate(calls, calls[0].rate)
    ensures Floored(Run(calls, false).cell, calls[|calls| - 1], ordered)
  {
    var n := |calls| - 1;
    if n == 0 {
      FirstCallFloored(calls[0], ordered);
    } else {
      RunFloored(calls[..n], ordered);
      FloorKept(Run(calls[..n], false).cell, calls[n - 1], calls[n], ordered);
    }
  }

  /** The expiring key gives the same verdicts as one that never expires: for any capacities
      when the clocks are ordered, and for a fixed capacity even when calls overtake. */
  lemma {:induction false} ExpiryIsUnobservable(calls: seq<Call>)
    requires AllSane(calls) && Prompt(calls)
    requires Ordered(calls) || (calls != [] && FixedRate(calls, calls[0].rate))
    ensures Run(calls, true) == Run(calls, false)
  {
    var n := |calls| - 1;
    if n == 0 {
      assert calls[..n] == [];
    } else if n > 0 {
      var ordered := Ordered(calls);
      ExpiryIsUnobservable(calls[..n]);
      RunFloored(calls[..n], ordered);
      SameVerdict(Run(calls[..n], false).cell, calls[n - 1], calls[n], ordered);
    }
  }

  lemma SameVerdict(cell: Cell, last: Call, c: Call, ordered: bool)
    requires Floored(cell, last, ordered)
    requires Sane(c) && c.now <= c.served <= c.now + 1.0
    requires ordered || last.rate == c.rate
    ensures After(cell, c, true) == After(cell, c, false) && Granted(cell, c, true) == Granted(cell, c, false)
  {
    if cell.expiresAt <= c.served {
      FullByExpiry(cell, last, c, ordered);
    }
  }

  /** The one second in the TTL beyond the refill time is exactly the lateness it can hide. */
  lemma LatenessBeyondASecondIsVisible(delay: real)
    requires 1.0 < delay <= 61.0
    ensures var calls := [CallOf(1, 0.0, 0.0), CallOf(1, 61.0 - delay, 61.0)];
            && Ordered(calls) && FixedRate(calls, calls[0].rate)
            && Run(calls, true).verdicts == [true, true]
            && Run(calls, false).verdicts == [true, false]
  {
    var first, second := CallOf(1, 0.0, 0.0), CallOf(1, 61.0 - delay, 61.0);
    TtlIsSixtyOne(first);
    assert [first][..0] == [] && [first, second][..1] == [first];
    assert Run([first], true) == Trace(Held(0.0, 0.0, 61.0), [true]);
    assert Run([first], false) == Trace(Held(0.0, 0.0, 61.0), [true]);
  }

  lemma OvertakingCells(a: Call, b: Call, c: Call, expiring: bool)
    requires a == CallOf(1, 1.0, 1.0) && b == CallOf(600, 0.0, 1.0) && c == CallOf(1, 62.0, 62.0)
    ensures After(Vacant, a, expiring) == Held(0.0, 1.0, 62.0) && Granted(Vacant, a, expiring)
    ensures After(Held(0.0, 1.0, 62.0), b, expiring) == Held(-10.0, 0.0, 62.0)
    ensures !Granted(Held(0.0, 1.0, 62.0), b, expiring)
    ensures Granted(Held(-10.0, 0.0, 62.0), c, expiring) == expiring
  {
    TtlIsSixtyOne(a);
    TtlIsSixtyOne(b);
  }

  lemma LastOfThree(a: Call, b: Call, c: Call, one: Cell, two: Cell, expiring: bool)
    requires Sane(a) && Sane(b) && Sane(c)
    requires After(Vacant, a, expiring) == one && After(one, b, expiring) == two
    ensures Run([a, b, c], expiring).verdicts[2] == Granted(two, c, expiring)
  {
    RunSnoc([], a, expiring);
    RunSnoc([a], b, expiring);
    RunSnoc([a, b], c, expiring);
    assert [] + [a] == [a] && [a] + [b] == [a, b] && [a, b] + [c] == [a, b, c];
  }

  /** Neither hypothesis of `ExpiryIsUnobservable` can be dropped: an overtaking call at a
      larger capacity drives the level so low that 60 seconds at a smaller one do not refill it. */
  lemma OvertakingAcrossCapacitiesIsVisible(a: Call, b: Call, c: Call, expiring: bool)
    requires a == CallOf(1, 1.0, 1.0) && b == CallOf(600, 0.0, 1.0) && c == CallOf(1, 62.0, 62.0)
    ensures Prompt([a, b, c])
    ensures Run([a, b, c], expiring).verdicts[2] == expiring
  {
    OvertakingCells(a, b, c, expiring);
    LastOfThree(a, b, c, Held(0.0, 1.0, 62.0), Held(-10.0, 0.0, 62.0), expiring);
  }
}
