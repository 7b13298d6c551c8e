/** What the token bucket grants over whole runs: its closed form, that no policy within the same
    window bound grants more, the rate envelope, and the meaning of `retry_after`. */
module TokenBucketLaws {
  import opened Numbers
  import opened TokenBucket

  /** The number of grants among the first `m` verdicts. */
  function Grants(verdicts: seq<bool>, m: nat): nat
    requires m <= |verdicts|
  {
    if m == 0 then 0 else Grants(verdicts, m - 1) + if verdicts[m - 1] then 1 else 0
  }

  /** Tokens that `rate` yields from call `a` to call `b`: the rate times the elapsed time. */
  function Refill(rate: real, a: Call, b: Call): (r: real)
    ensures r == rate * (b.now - a.now)
  {
    rate * b.now - rate * a.now
  }

  function Spend(level: real): real {
    if 1.0 <= level then level - 1.0 else level
  }

  /** The levels the script compares with one token, call by call, for a key that never expires. */
  ghost predicate Follows(calls: seq<Call>, levels: seq<real>) {
    && |levels| == |calls|
    && (calls != [] ==> levels[0] == calls[0].capacity)
    && forall k :: 0 < k < |calls| ==>
         levels[k] == Min(calls[k].capacity, Spend(levels[k - 1]) + Refill(calls[k].rate, calls[k - 1], calls[k]))
  }

  function Verdicts(levels: seq<real>): (v: seq<bool>)
    ensures |v| == |levels| && forall k :: 0 <= k < |v| ==> v[k] == (1.0 <= levels[k])
  {
    seq(|levels|, k requires 0 <= k < |levels| => 1.0 <= levels[k])
  }

  lemma RefillGrows(rate: real, a: Call, b: Call, elapsed: real)
    requires 0.0 <= rate && elapsed <= b.now - a.now
    ensures rate * elapsed <= Refill(rate, a, b)
  {
    ProductGrows(rate, elapsed, b.now - a.now);
  }

  lemma LevelOfHeld(cell: Cell, prev: Call, c: Call)
    requires cell.Held? && cell.lastRefill == prev.now
    ensures LevelAt(cell, c, false) == Min(c.capacity, cell.tokens + Refill(c.rate, prev, c))
  {
  }

  lemma LevelOfVacant(c: Call)
    ensures LevelAt(Vacant, c, false) == c.capacity
  {
    assert c.rate * (c.now - c.now) == 0.0;
  }

  lemma FollowsSnoc(calls: seq<Call>, levels: seq<real>, c: Call, level: real)
    requires Follows(calls, levels)
    requires if calls == [] then level == c.capacity
             else var n := |calls| - 1; level == Min(c.capacity, Spend(levels[n]) + Refill(c.rate, calls[n], c))
    ensures Follows(calls + [c], levels + [level])
    ensures Verdicts(levels + [level]) == Verdicts(levels) + [1.0 <= level]
  {
  }

  lemma {:induction false} LevelsOf(calls: seq<Call>) returns (levels: seq<real>)
    requires AllSane(calls)
    ensures Follows(calls, levels)
    ensures var t := Run(calls, false);
            && t.verdicts == Verdicts(levels)
            && (calls != [] ==> var n := |calls| - 1;
                                t.cell.lastRefill == calls[n].now && t.cell.tokens == Spend(levels[n]))
  {
    levels := [];
    if calls != [] {
      var n := |calls| - 1;
      var prior, c := calls[..n], calls[n];
      var before := Run(prior, false);
      levels := LevelsOf(prior);
      if n == 0 {
        LevelOfVacant(c);
      } else {
        LevelOfHeld(before.cell, prior[n - 1], c);
      }
      FollowsSnoc(prior, levels, c, LevelAt(before.cell, c, false));
      RunSnoc(prior, c, false);
      assert calls == prior + [c];
      levels := levels + [LevelAt(before.cell, c, false)];
    }
  }

  // ----------------------------------------------------------------------------------------
  // Closed form, for one fixed rate
  // ----------------------------------------------------------------------------------------

  ghost predicate FixedRun(calls: seq<Call>, rate: real) {
    AllSane(calls) && FixedRate(calls, rate)
  }

  /** What the window from call `i` to call `j` still allows after the first `m` verdicts:
      capacity + rate * length - grants. */
  function Slack(calls: seq<Call>, rate: real, verdicts: seq<bool>, i: nat, m: nat, j: nat): real
    requires i <= m <= |verdicts| && i < |calls| && j < |calls|
  {
    60.0 * rate + Refill(rate, calls[i], calls[j])
      - (Grants(verdicts, m) as real - Grants(verdicts, i) as real)
  }

  /** `x` is the least slack at call `j` over the windows starting at one of calls `0..starts`,
      once `m` verdicts are in. */
  ghost predicate LeastSlack(calls: seq<Call>, rate: real, verdicts: seq<bool>, starts: nat, m: nat, j: nat, x: real)
    requires starts <= |calls| && starts <= m + 1 && m <= |verdicts| && j < |calls|
  {
    && (forall i :: 0 <= i < starts && i <= m ==> x <= Slack(calls, rate, verdicts, i, m, j))
    && (exists i :: 0 <= i < starts && i <= m && x == Slack(calls, rate, verdicts, i, m, j))
  }

  lemma LeastSlackLater(calls: seq<Call>, rate: real, verdicts: seq<bool>, n: nat, x: real)
    requires 0 < n < |calls| && n <= |verdicts|
    requires LeastSlack(calls, rate, verdicts, n, n, n - 1, x)
    ensures LeastSlack(calls, rate, verdicts, n, n, n, x + Refill(rate, calls[n - 1], calls[n]))
  {
    forall i | 0 <= i < n
      ensures Slack(calls, rate, verdicts, i, n, n)
           == Slack(calls, rate, verdicts, i, n, n - 1) + Refill(rate, calls[n - 1], calls[n])
    {
    }
    var k :| 0 <= k < n && k <= n && x == Slack(calls, rate, verdicts, k, n, n - 1);
    assert Slack(calls, rate, verdicts, k, n, n) == x + Refill(rate, calls[n - 1], calls[n]);
  }

  /** The window that starts now allows the whole capacity. */
  lemma LeastSlackFromHere(calls: seq<Call>, rate: real, verdicts: seq<bool>, n: nat, x: real)
    requires n < |calls| && n <= |verdicts|
    requires n > 0 ==> LeastSlack(calls, rate, verdicts, n, n, n, x)
    ensures LeastSlack(calls, rate, verdicts, n + 1, n, n, if n == 0 then 60.0 * rate else Min(60.0 * rate, x))
  {
    assert Slack(calls, rate, verdicts, n, n, n) == 60.0 * rate;
    if n > 0 {
      var k :| 0 <= k < n && k <= n && x == Slack(calls, rate, verdicts, k, n, n);
    }
  }

  lemma LeastSlackSpent(calls: seq<Call>, rate: real, verdicts: seq<bool>, n: nat, x: real)
    requires n < |calls| && n < |verdicts|
    requires LeastSlack(calls, rate, verdicts, n + 1, n, n, x)
    requires verdicts[n] == (1.0 <= x)
    ensures LeastSlack(calls, rate, verdicts, n + 1, n + 1, n, Spend(x))
  {
    var spent, m := x - Spend(x), n + 1;
    forall i | 0 <= i < m
      ensures Slack(calls, rate, verdicts, i, m, n) == Slack(calls, rate, verdicts, i, n, n) - spent
    {
    }
    var k :| 0 <= k < m && k <= n && x == Slack(calls, rate, verdicts, k, n, n);
    assert Slack(calls, rate, verdicts, k, m, n) == Spend(x);
    assert Slack(calls, rate, verdicts, n, m, n) >= Spend(x);
  }

  /** Closed form. The level at call `n` is the least slack over all windows starting at an
      earlier call or at this one; what is stored is the least slack with its verdict in. */
  lemma {:induction false} LevelIsLeastSlack(calls: seq<Call>, rate: real, levels: seq<real>, n: nat)
    requires FixedRun(calls, rate) && Follows(calls, levels) && n < |calls|
    ensures LeastSlack(calls, rate, Verdicts(levels), n + 1, n, n, levels[n])
    ensures LeastSlack(calls, rate, Verdicts(levels), n + 1, n + 1, n, Spend(levels[n]))
  {
    var verdicts := Verdicts(levels);
    var x := 0.0;
    if n > 0 {
      LevelIsLeastSlack(calls, rate, levels, n - 1);
      LeastSlackLater(calls, rate, verdicts, n, Spend(levels[n - 1]));
      x := Spend(levels[n - 1]) + Refill(rate, calls[n - 1], calls[n]);
    }
    LeastSlackFromHere(calls, rate, verdicts, n, x);
    LeastSlackSpent(calls, rate, verdicts, n, levels[n]);
  }

  /** The closed form of the stored hash field of a key that never expires. */
  lemma IdealTokens(calls: seq<Call>, rate: real)
    requires FixedRun(calls, rate) && calls != []
    ensures var t := Run(calls, false);
            LeastSlack(calls, rate, t.verdicts, |calls|, |calls|, |calls| - 1, t.cell.tokens)
  {
    var levels := LevelsOf(calls);
    LevelIsLeastSlack(calls, rate, levels, |calls| - 1);
  }

  // ----------------------------------------------------------------------------------------
  // Verdicts and optimality
  // ----------------------------------------------------------------------------------------

  /** For the same key, a call is denied exactly when granting it would make some window that starts at an
      earlier call or at this one exceed capacity + rate * length. */
  lemma IdealDeniesIffWindowIsFull(calls: seq<Call>, rate: real, n: nat)
    requires FixedRun(calls, rate) && n < |calls|
    ensures var verdicts := Run(calls, false).verdicts;
            !verdicts[n] <==> exists i :: 0 <= i <= n && Slack(calls, rate, verdicts, i, n, n) < 1.0
  {
    var levels := LevelsOf(calls);
    LevelIsLeastSlack(calls, rate, levels, n);
  }

  /** Every window that ends at call `j` keeps slack at least `x` after `m` verdicts. */
  ghost predicate WindowsKeep(calls: seq<Call>, rate: real, verdicts: seq<bool>, m: nat, j: nat, x: real)
    requires j <= m <= |verdicts| && j < |calls|
  {
    forall i :: 0 <= i <= j ==> x <= Slack(calls, rate, verdicts, i, m, j)
  }

  /** Every window that ends at a granted call holds at most capacity + rate * length grants. */
  ghost predicate WithinWindows(calls: seq<Call>, rate: real, verdicts: seq<bool>)
    requires |verdicts| == |calls|
  {
    forall j :: 0 <= j < |calls| && verdicts[j] ==> WindowsKeep(calls, rate, verdicts, j + 1, j, 0.0)
  }

  lemma IdealWithinWindows(calls: seq<Call>, rate: real)
    requires FixedRun(calls, rate)
    ensures WithinWindows(calls, rate, Run(calls, false).verdicts)
  {
    var verdicts := Run(calls, false).verdicts;
    forall j | 0 <= j < |calls| && verdicts[j]
      ensures WindowsKeep(calls, rate, verdicts, j + 1, j, 0.0)
    {
      IdealDeniesIffWindowIsFull(calls, rate, j);
      var m := j + 1;
      forall i | 0 <= i <= j
        ensures 0.0 <= Slack(calls, rate, verdicts, i, m, j)
      {
        assert 1.0 <= Slack(calls, rate, verdicts, i, j, j);
      }
    }
  }

  /** Optimality: after every call, no sequence of verdicts within the window bound has granted
      more than the bucket. */
  lemma {:induction false} IdealGrantsMost(calls: seq<Call>, rate: real, rival: seq<bool>, m: nat)
    requires FixedRun(calls, rate) && |rival| == |calls| && m <= |calls|
    requires WithinWindows(calls, rate, rival)
    ensures Grants(rival, m) <= Grants(Run(calls, false).verdicts, m)
  {
    var verdicts := Run(calls, false).verdicts;
    if m > 0 {
      var n := m - 1;
      IdealGrantsMost(calls, rate, rival, n);
      if rival[n] && !verdicts[n] {
        IdealDeniesIffWindowIsFull(calls, rate, n);
        var i :| 0 <= i <= n && Slack(calls, rate, verdicts, i, n, n) < 1.0;
        IdealGrantsMost(calls, rate, rival, i);
        assert WindowsKeep(calls, rate, rival, n + 1, n, 0.0);
        assert 0.0 <= Slack(calls, rate, rival, i, n + 1, n);
      }
    }
  }

  // ----------------------------------------------------------------------------------------
  // Rate envelope and retry-after
  // ----------------------------------------------------------------------------------------

  /** Tokens refilled by the calls after call `i` up to call `j`, each at its own rate. */
  function RefillBetween(calls: seq<Call>, i: nat, j: nat): real
    requires i <= j < |calls|
  {
    if i == j then 0.0 else RefillBetween(calls, i, j - 1) + Refill(calls[j].rate, calls[j - 1], calls[j])
  }

  /** With ordered clocks a level is never negative, whatever the capacities. */
  lemma {:induction false} LevelNotNegative(calls: seq<Call>, levels: seq<real>, n: nat)
    requires AllSane(calls) && Ordered(calls) && Follows(calls, levels) && n < |calls|
    ensures 0.0 <= Spend(levels[n])
  {
    if n > 0 {
      LevelNotNegative(calls, levels, n - 1);
      RefillGrows(calls[n].rate, calls[n - 1], calls[n], 0.0);
    }
  }

  lemma {:induction false} GrantsPlusLevel(calls: seq<Call>, levels: seq<real>, i: nat, j: nat)
    requires AllSane(calls) && Follows(calls, levels) && i <= j < |calls|
    ensures Spend(levels[j]) + Grants(Verdicts(levels), j + 1) as real - Grants(Verdicts(levels), i) as real
              <= calls[i].capacity + RefillBetween(calls, i, j)
  {
    if i < j {
      GrantsPlusLevel(calls, levels, i, j - 1);
    }
  }

  /** Rate envelope, for capacities that may change at every call: the grants among calls
      `i..j` are at most the capacity at `i` plus what was refilled up to `j`. */
  lemma RateEnvelope(calls: seq<Call>, i: nat, j: nat)
    requires AllSane(calls) && Ordered(calls) && Prompt(calls) && i <= j < |calls|
    ensures var verdicts := Run(calls, true).verdicts;
            (Grants(verdicts, j + 1) - Grants(verdicts, i)) as real
              <= calls[i].capacity + RefillBetween(calls, i, j)
  {
    ExpiryIsUnobservable(calls);
    var levels := LevelsOf(calls);
    GrantsPlusLevel(calls, levels, i, j);
    LevelNotNegative(calls, levels, j);
  }

  /** For one fixed capacity any window, ending at a grant or not, keeps nonnegative slack. */
  lemma SlackNotNegative(calls: seq<Call>, rate: real, i: nat, j: nat)
    requires FixedRun(calls, rate) && Ordered(calls) && i <= j < |calls|
    ensures 0.0 <= Slack(calls, rate, Run(calls, false).verdicts, i, j + 1, j)
  {
    var levels := LevelsOf(calls);
    LevelIsLeastSlack(calls, rate, levels, j);
    LevelNotNegative(calls, levels, j);
  }

  lemma RefillWithinAMinute(rate: real, a: Call, b: Call)
    requires 0.0 <= rate && b.now - a.now <= 60.0
    ensures Refill(rate, a, b) <= 60.0 * rate
  {
    ProductGrows(rate, b.now - a.now, 60.0);
  }

  /** Sixty seconds hold at most twice the capacity. */
  lemma MinuteBound(calls: seq<Call>, rate: real, i: nat, j: nat)
    requires FixedRun(calls, rate) && Ordered(calls) && Prompt(calls) && i <= j < |calls|
    requires calls[j].now - calls[i].now <= 60.0
    ensures var verdicts := Run(calls, true).verdicts;
            (Grants(verdicts, j + 1) - Grants(verdicts, i)) as real <= 2.0 * calls[i].capacity
  {
    var verdicts := Run(calls, true).verdicts;
    assert 0.0 <= Slack(calls, rate, verdicts, i, j + 1, j) by {
      ExpiryIsUnobservable(calls);
      SlackNotNegative(calls, rate, i, j);
    }
    RefillWithinAMinute(rate, calls[i], calls[j]);
  }

  lemma {:induction false} NoGrantsBetween(verdicts: seq<bool>, i: nat, j: nat)
    requires i <= j <= |verdicts|
    requires forall k :: i <= k < j ==> !verdicts[k]
    ensures Grants(verdicts, j) == Grants(verdicts, i)
  {
    if i < j {
      NoGrantsBetween(verdicts, i, j - 1);
    }
  }

  lemma WaitedLongEnough(rate: real, r: int, a: Call, b: Call)
    requires 0.0 < rate && LeastWait(rate, r) && a.now + r as real <= b.now
    ensures 1.0 <= Refill(rate, a, b)
  {
    ProductGrows(rate, r as real, b.now - a.now);
  }

  lemma SlackAfterWaiting(calls: seq<Call>, rate: real, r: int, verdicts: seq<bool>, i: nat, n: nat, m: nat)
    requires FixedRun(calls, rate) && Ordered(calls) && i < n < |calls| && n <= |verdicts| && m <= n
    requires forall k :: i <= k < n ==> !verdicts[k]
    requires LeastWait(rate, r) && calls[i].now + r as real <= calls[n].now
    requires m <= i ==> 0.0 <= Slack(calls, rate, verdicts, m, i + 1, i)
    ensures 1.0 <= Slack(calls, rate, verdicts, m, n, n)
  {
    if i < m {
      NoGrantsBetween(verdicts, m, n);
      RefillGrows(rate, calls[m], calls[n], 0.0);
    } else {
      NoGrantsBetween(verdicts, i + 1, n);
      WaitedLongEnough(rate, r, calls[i], calls[n]);
    }
  }

  /** A denied caller that comes back after `retry_after` seconds, with only denials in between,
      is granted. */
  lemma RetryAfterSuffices(calls: seq<Call>, rate: real, r: int, i: nat, n: nat)
    requires FixedRun(calls, rate) && Ordered(calls) && Prompt(calls) && i < n < |calls|
    requires forall k :: i <= k < n ==> !Run(calls, true).verdicts[k]
    requires LeastWait(rate, r) && calls[i].now + r as real <= calls[n].now
    ensures Run(calls, true).verdicts[n]
  {
    ExpiryIsUnobservable(calls);
    var verdicts := Run(calls, false).verdicts;
    forall m | 0 <= m <= n
      ensures 1.0 <= Slack(calls, rate, verdicts, m, n, n)
    {
      if m <= i {
        SlackNotNegative(calls, rate, m, i);
      }
      SlackAfterWaiting(calls, rate, r, verdicts, i, n, m);
    }
    IdealDeniesIffWindowIsFull(calls, rate, n);
  }

  /** `n` calls at one instant. */
  function Burst(rpm: int, n: nat): seq<Call>
    requires 0 < rpm
  {
    seq(n, _ => CallOf(rpm, 0.0, 0.0))
  }

  lemma BurstSnoc(rpm: int, n: nat)
    requires 0 < rpm
    ensures Burst(rpm, n + 1) == Burst(rpm, n) + [CallOf(rpm, 0.0, 0.0)]
  {
  }

  /** One more call of a burst on what the calls before it left. */
  lemma BurstStep(rpm: int, tokens: real)
    requires 0 < rpm && tokens <= rpm as real
    ensures var c := CallOf(rpm, 0.0, 0.0);
            && Granted(Held(tokens, 0.0, 61.0), c, true) == (1.0 <= tokens)
            && After(Held(tokens, 0.0, 61.0), c, true) == Held(if 1.0 <= tokens then tokens - 1.0 else tokens, 0.0, 61.0)
  {
    TtlIsSixtyOne(CallOf(rpm, 0.0, 0.0));
  }

  lemma BurstStart(rpm: int)
    requires 0 < rpm
    ensures var c := CallOf(rpm, 0.0, 0.0);
            Granted(Vacant, c, true) && After(Vacant, c, true) == Held((rpm - 1) as real, 0.0, 61.0)
  {
    TtlIsSixtyOne(CallOf(rpm, 0.0, 0.0));
    LevelOfVacant(CallOf(rpm, 0.0, 0.0));
  }

  /** What `n` simultaneous calls leave of a new key. */
  function Left(rpm: int, n: nat): Cell {
    if n == 0 then Vacant else Held(if n <= rpm then (rpm - n) as real else 0.0, 0.0, 61.0)
  }

  /** A new key grants exactly the first `rpm` of any number of simultaneous calls. */
  lemma {:induction false} FreshBurst(rpm: int, n: nat)
    requires 0 < rpm
    ensures var t := Run(Burst(rpm, n), true);
            t.cell == Left(rpm, n) && forall k :: 0 <= k < n ==> (t.verdicts[k] <==> k < rpm)
  {
    if n > 0 {
      var m := n - 1;
      FreshBurst(rpm, m);
      BurstSnoc(rpm, m);
      RunSnoc(Burst(rpm, m), CallOf(rpm, 0.0, 0.0), true);
      if m == 0 {
        BurstStart(rpm);
      } else {
        BurstStep(rpm, Left(rpm, m).tokens);
      }
    }
  }

  /** `rpm + 1` calls at once, and one that comes back `wait` seconds later. */
  function BurstThen(rpm: int, wait: int): (calls: seq<Call>)
    requires 0 < rpm
    ensures AllSane(calls)
  {
    Burst(rpm, rpm + 1) + [CallOf(rpm, wait as real, wait as real)]
  }

  lemma BurstThenOrdered(rpm: int, wait: int)
    requires 0 < rpm && 0 <= wait
    ensures Prompt(BurstThen(rpm, wait)) && Ordered(BurstThen(rpm, wait))
    ensures FixedRun(BurstThen(rpm, wait), rpm as real / 60.0)
  {
  }

  lemma BurstThenVerdicts(rpm: int, wait: int)
    requires 0 < rpm
    ensures var verdicts := Run(BurstThen(rpm, wait), true).verdicts;
            && |verdicts| == rpm + 2 && !verdicts[rpm]
            && verdicts[rpm + 1] == Granted(Held(0.0, 0.0, 61.0), CallOf(rpm, wait as real, wait as real), true)
  {
    FreshBurst(rpm, rpm + 1);
    RunSnoc(Burst(rpm, rpm + 1), CallOf(rpm, wait as real, wait as real), true);
  }

  /** `retry_after` cannot be shortened: for every cap there is a run with a denied call whose
      caller comes back one second earlier than advised and is denied again. */
  lemma RetryAfterIsTight(rpm: int, rate: real, r: int)
    requires 0 < rpm && rate == rpm as real / 60.0 && LeastWait(rate, r)
    ensures var calls := BurstThen(rpm, r - 1);
            && Prompt(calls) && Ordered(calls) && FixedRun(calls, rate)
            && calls[rpm + 1].now == calls[rpm].now + (r - 1) as real
            && !Run(calls, true).verdicts[rpm] && !Run(calls, true).verdicts[rpm + 1]
  {
    AdviceWithinAMinute(rpm, rate, r);
    BurstThenOrdered(rpm, r - 1);
    BurstThenVerdicts(rpm, r - 1);
    DeniedEarly(CallOf(rpm, (r - 1) as real, (r - 1) as real), r);
  }

  /** A key emptied at time zero is short of a token until one has refilled. */
  lemma EmptyLevel(c: Call, refilled: real)
    requires c.served < 61.0 && refilled == c.rate * (c.now - 0.0) && refilled < 1.0
    ensures !Granted(Held(0.0, 0.0, 61.0), c, true)
  {
    assert LevelAt(Held(0.0, 0.0, 61.0), c, true) == Min(c.capacity, refilled);
  }

  lemma DeniedEarly(c: Call, r: int)
    requires c.served < 61.0 && c.now == (r - 1) as real && LeastWait(c.rate, r)
    ensures !Granted(Held(0.0, 0.0, 61.0), c, true)
  {
    EmptyLevel(c, c.rate * (r - 1) as real);
  }

  lemma AdviceWithinAMinute(rpm: int, rate: real, r: int)
    requires 0 < rpm && rate == rpm as real / 60.0 && LeastWait(rate, r)
    ensures 1 <= r <= 60
  {
    if r <= 0 {
      ProductGrows(rate, r as real, 0.0);
    }
    if 61 <= r {
      ProductGrows(rate, 60.0, (r - 1) as real);
    }
  }

  /** The closed form of the hash field that Redis holds after any run of calls: the least slack
      over all windows that end at the last call. */
  lemma StoredTokens(calls: seq<Call>, rate: real)
    requires FixedRun(calls, rate) && Prompt(calls) && calls != []
    ensures var t := Run(calls, true);
            LeastSlack(calls, rate, t.verdicts, |calls|, |calls|, |calls| - 1, t.cell.tokens)
  {
    ExpiryIsUnobservable(calls);
    IdealTokens(calls, rate);
  }

  /** A call is denied exactly when granting it would make some window that starts at an earlier
      call or at this one exceed capacity + rate * length. */
  lemma DeniedIffSomeWindowIsFull(calls: seq<Call>, rate: real, n: nat)
    requires FixedRun(calls, rate) && Prompt(calls) && n < |calls|
    ensures var verdicts := Run(calls, true).verdicts;
            !verdicts[n] <==> exists i :: 0 <= i <= n && Slack(calls, rate, verdicts, i, n, n) < 1.0
  {
    ExpiryIsUnobservable(calls);
    IdealDeniesIffWindowIsFull(calls, rate, n);
  }

  /** Optimality of the key as Redis keeps it, expiry included. */
  lemma RealBucketGrantsMost(calls: seq<Call>, rate: real, rival: seq<bool>, m: nat)
    requires FixedRun(calls, rate) && Prompt(calls) && |rival| == |calls| && m <= |calls|
    requires WithinWindows(calls, rate, rival)
    ensures var verdicts := Run(calls, true).verdicts;
            WithinWindows(calls, rate, verdicts) && Grants(rival, m) <= Grants(verdicts, m)
  {
    ExpiryIsUnobservable(calls);
    IdealWithinWindows(calls, rate);
    IdealGrantsMost(calls, rate, rival, m);
  }
}
