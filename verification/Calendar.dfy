/** The quota periods of `src/gateway/quota/tracker.py` over the proleptic Gregorian calendar.
    An instant is the UTC time in seconds since 0001-01-01T00:00:00. */
module Calendar {
  import opened Text

  const DAILY_TTL := 86400
  const MONTHLY_TTL := 2678400

  datatype Period = Daily | Monthly
  datatype Date = Date(year: int, month: int, day: int)

  // ----------------------------------------------------------------------------------------
  // Civil dates
  // ----------------------------------------------------------------------------------------

  predicate IsLeap(year: int) {
    year % 4 == 0 && (year % 100 != 0 || year % 400 == 0)
  }

  function DaysInMonth(year: int, month: int): (d: int)
    ensures 28 <= d <= 31
  {
    if month == 2 then (if IsLeap(year) then 29 else 28)
    else if month in {4, 6, 9, 11} then 30
    else 31
  }

  predicate Valid(d: Date) {
    1 <= d.year && 1 <= d.month <= 12 && 1 <= d.day <= DaysInMonth(d.year, d.month)
  }

  /** `date + timedelta(days=1)`. */
  function NextDay(d: Date): (next: Date)
    requires Valid(d)
    ensures Valid(next)
  {
    if d.day < DaysInMonth(d.year, d.month) then Date(d.year, d.month, d.day + 1)
    else if d.month < 12 then Date(d.year, d.month + 1, 1)
    else Date(d.year + 1, 1, 1)
  }

  /** The civil date `n` days after 0001-01-01, counted out day by day. */
  function DateOf(n: nat): (d: Date)
    ensures Valid(d)
  {
    if n == 0 then Date(1, 1, 1) else NextDay(DateOf(n - 1))
  }

  function DaysBeforeMonth(year: int, month: int): int
    requires 1 <= month <= 13
  {
    [0, 31, 59, 90, 120, 151, 181, 212, 243, 273, 304, 334, 365][month - 1]
      + if 2 < month && IsLeap(year) then 1 else 0
  }

  function DaysBeforeYear(year: int): int {
    var y := year - 1;
    365 * y + y / 4 - y / 100 + y / 400
  }

  /** Days from 0001-01-01 by the closed form `365 y + y/4 - y/100 + y/400`. */
  function DayNumber(d: Date): int
    requires Valid(d)
  {
    DaysBeforeYear(d.year) + DaysBeforeMonth(d.year, d.month) + d.day - 1
  }

  lemma QuotientStep(y: int, k: int)
    requires k == 4 || k == 100 || k == 400
    ensures y / k == (y - 1) / k + if y % k == 0 then 1 else 0
  {
    if k == 4 {
      assert y / 4 == (y - 1) / 4 + if y % 4 == 0 then 1 else 0;
    } else if k == 100 {
      assert y / 100 == (y - 1) / 100 + if y % 100 == 0 then 1 else 0;
    } else {
      assert y / 400 == (y - 1) / 400 + if y % 400 == 0 then 1 else 0;
    }
  }

  lemma YearLength(year: int)
    ensures DaysBeforeYear(year + 1) == DaysBeforeYear(year) + DaysBeforeMonth(year, 13)
  {
    QuotientStep(year, 4);
    QuotientStep(year, 100);
    QuotientStep(year, 400);
  }

  lemma MonthLength(year: int, month: int)
    requires 1 <= month <= 12
    ensures DaysBeforeMonth(year, month + 1) == DaysBeforeMonth(year, month) + DaysInMonth(year, month)
  {
  }

  lemma NextDayNumber(d: Date)
    requires Valid(d)
    ensures DayNumber(NextDay(d)) == DayNumber(d) + 1
  {
    YearLength(d.year);
    MonthLength(d.year, d.month);
  }

  /** Counting days one by one agrees with the closed form, so `DateOf` is the calendar. */
  lemma {:induction false} DateOfDayNumber(n: nat)
    ensures DayNumber(DateOf(n)) == n
  {
    if n > 0 {
      DateOfDayNumber(n - 1);
      NextDayNumber(DateOf(n - 1));
    }
  }

  // ----------------------------------------------------------------------------------------
  // Periods
  // ----------------------------------------------------------------------------------------

  function DayOf(t: real): (n: nat)
    requires 0.0 <= t
    ensures n as real * 86400.0 <= t < (n + 1) as real * 86400.0
  {
    (t / 86400.0).Floor
  }

  /** The civil date of an instant, `datetime.now(tz=utc).date()`. */
  function DateAt(t: real): (d: Date)
    requires 0.0 <= t
    ensures Valid(d)
  {
    DateOf(DayOf(t))
  }

  function Midnight(d: Date): real
    requires Valid(d)
  {
    DayNumber(d) as real * 86400.0
  }

  /** `resets_at`: midnight of tomorrow, or of the first of next month. */
  function ResetsAt(p: Period, t: real): real
    requires 0.0 <= t
  {
    var today := DateAt(t);
    match p
    case Daily => Midnight(NextDay(today))
    case Monthly =>
      if today.month == 12 then Midnight(Date(today.year + 1, 1, 1))
      else Midnight(Date(today.year, today.month + 1, 1))
  }

  function MonthText(d: Date): string
    requires Valid(d)
  {
    Decimal(d.year) + "-" + Padded(d.month, 2)
  }

  /** `period_bucket`: the text YYYY-MM-DD or YYYY-MM. */
  function PeriodBucket(p: Period, t: real): string
    requires 0.0 <= t
  {
    var d := DateAt(t);
    match p
    case Daily => MonthText(d) + "-" + Padded(d.day, 2)
    case Monthly => MonthText(d)
  }

  function PeriodTtl(p: Period): int {
    match p
    case Daily => DAILY_TTL
    case Monthly => MONTHLY_TTL
  }

  /** A number for the period of an instant: its day, or its month counted from year 0. */
  function PeriodIndex(p: Period, t: real): int
    requires 0.0 <= t
  {
    match p
    case Daily => DayOf(t)
    case Monthly => MonthIndex(DateAt(t))
  }

  function MonthIndex(d: Date): int {
    12 * d.year + d.month
  }

  /** The instants of one month are the days whose numbers lie between two firsts. */
  function FirstOfNext(d: Date): (first: Date)
    requires Valid(d)
    ensures Valid(first) && MonthIndex(first) == MonthIndex(d) + 1
  {
    if d.month == 12 then Date(d.year + 1, 1, 1) else Date(d.year, d.month + 1, 1)
  }

  lemma DaysToFirstOfNext(d: Date)
    requires Valid(d)
    ensures DayNumber(FirstOfNext(d)) == DayNumber(d) + DaysInMonth(d.year, d.month) - d.day + 1
  {
    YearLength(d.year);
    MonthLength(d.year, d.month);
  }

  lemma DayOfGrows(t: real, u: real)
    requires 0.0 <= t <= u
    ensures DayOf(t) <= DayOf(u)
  {
  }

  lemma DayOfBefore(t: real, n: nat)
    requires 0.0 <= t
    ensures DayOf(t) < n <==> t < n as real * 86400.0
  {
  }

  /** The number of the day on which the month of day `n` is over. */
  function MonthEnd(n: nat): int {
    DayNumber(FirstOfNext(DateOf(n)))
  }

  /** Months advance one at a time, exactly on the days where the month of the day before ends. */
  lemma MonthStep(n: nat)
    ensures n < MonthEnd(n)
    ensures var m := n + 1;
            && MonthIndex(DateOf(m)) == MonthIndex(DateOf(n)) + (if m == MonthEnd(n) then 1 else 0)
            && (m < MonthEnd(n) ==> MonthEnd(m) == MonthEnd(n))
  {
    DateOfDayNumber(n);
    DaysToFirstOfNext(DateOf(n));
  }

  lemma {:induction false} MonthIndexGrows(m: nat, n: nat)
    requires m <= n
    ensures MonthIndex(DateOf(m)) <= MonthIndex(DateOf(n))
    ensures MonthIndex(DateOf(m)) == MonthIndex(DateOf(n)) <==> n < MonthEnd(m)
    ensures n < MonthEnd(m) ==> MonthEnd(n) == MonthEnd(m)
  {
    if m == n {
      MonthStep(m);
    } else {
      var k := n - 1;
      MonthIndexGrows(m, k);
      MonthStep(k);
      assert k + 1 == n;
    }
  }

  lemma DayIndexGrows(t: real, u: real)
    requires 0.0 <= t <= u
    ensures DayOf(t) == DayOf(u) <==> u < ResetsAt(Daily, t)
  {
    var m := DayOf(t);
    DateOfDayNumber(m);
    NextDayNumber(DateOf(m));
    DayOfGrows(t, u);
    DayOfBefore(u, m + 1);
  }

  lemma MonthResetTime(t: real)
    requires 0.0 <= t
    ensures ResetsAt(Monthly, t) == Midnight(FirstOfNext(DateAt(t)))
  {
  }

  lemma MonthResets(t: real, u: real)
    requires 0.0 <= t <= u
    ensures u < ResetsAt(Monthly, t) <==> DayOf(u) < MonthEnd(DayOf(t))
  {
    MonthResetTime(t);
    var end := MonthEnd(DayOf(t));
    assert Midnight(FirstOfNext(DateAt(t))) == end as real * 86400.0;
    MonthStep(DayOf(t));
    DayOfBefore(u, end);
  }

  /** Later instants have the same period index exactly until the reset time, and never a
      smaller one. */
  lemma PeriodIndexGrows(p: Period, t: real, u: real)
    requires 0.0 <= t <= u
    ensures PeriodIndex(p, t) <= PeriodIndex(p, u)
    ensures PeriodIndex(p, t) == PeriodIndex(p, u) <==> u < ResetsAt(p, t)
  {
    DayOfGrows(t, u);
    match p
    case Daily => DayIndexGrows(t, u);
    case Monthly =>
      MonthIndexGrows(DayOf(t), DayOf(u));
      MonthResets(t, u);
  }

  lemma TwoDigits(a: nat, restA: string, b: nat, restB: string)
    requires a < 100 && b < 100 && "-" + Padded(a, 2) + restA == "-" + Padded(b, 2) + restB
    ensures a == b && restA == restB
  {
    var text := "-" + Padded(a, 2) + restA;
    assert Padded(a, 2) == text[1..3] == Padded(b, 2);
    assert restA == text[3..] == restB;
    assert Pow10(2) == 100;
    PaddedRoundTrip(a, 2);
    PaddedRoundTrip(b, 2);
  }

  lemma MonthTextSplit(d: Date, rest: string)
    requires Valid(d)
    ensures MonthText(d) + rest == Decimal(d.year) + ("-" + Padded(d.month, 2) + rest)
  {
  }

  lemma MonthTextDetermines(a: Date, restA: string, b: Date, restB: string)
    requires Valid(a) && Valid(b) && MonthText(a) + restA == MonthText(b) + restB
    ensures a.year == b.year && a.month == b.month && restA == restB
  {
    MonthTextSplit(a, restA);
    MonthTextSplit(b, restB);
    DecimalPrefix(a.year, "-" + Padded(a.month, 2) + restA, b.year, "-" + Padded(b.month, 2) + restB);
    TwoDigits(a.month, restA, b.month, restB);
  }

  lemma DayTextDetermines(a: Date, b: Date)
    requires Valid(a) && Valid(b)
    requires MonthText(a) + ("-" + Padded(a.day, 2)) == MonthText(b) + ("-" + Padded(b.day, 2))
    ensures a == b
  {
    var restA, restB := "-" + Padded(a.day, 2), "-" + Padded(b.day, 2);
    MonthTextDetermines(a, restA, b, restB);
    assert restA + [] == restA && restB + [] == restB;
    TwoDigits(a.day, [], b.day, []);
  }

  /** The bucket text determines the period and conversely. */
  lemma BucketIffIndex(p: Period, t: real, u: real)
    requires 0.0 <= t && 0.0 <= u
    ensures PeriodBucket(p, t) == PeriodBucket(p, u) <==> PeriodIndex(p, t) == PeriodIndex(p, u)
  {
    var a, b := DateAt(t), DateAt(u);
    match p
    case Daily =>
      DateOfDayNumber(DayOf(t));
      DateOfDayNumber(DayOf(u));
      assert MonthText(a) + "-" + Padded(a.day, 2) == MonthText(a) + ("-" + Padded(a.day, 2));
      assert MonthText(b) + "-" + Padded(b.day, 2) == MonthText(b) + ("-" + Padded(b.day, 2));
      if PeriodBucket(p, t) == PeriodBucket(p, u) {
        DayTextDetermines(a, b);
      }
    case Monthly =>
      assert MonthText(a) + [] == MonthText(a) && MonthText(b) + [] == MonthText(b);
      if PeriodBucket(p, t) == PeriodBucket(p, u) {
        MonthTextDetermines(a, [], b, []);
      }
  }

  /** Two instants share a bucket exactly when the later one is before the earlier one's reset. */
  lemma BucketUntilReset(p: Period, t: real, u: real)
    requires 0.0 <= t <= u
    ensures PeriodBucket(p, t) == PeriodBucket(p, u) <==> u < ResetsAt(p, t)
  {
    BucketIffIndex(p, t, u);
    PeriodIndexGrows(p, t, u);
  }

  lemma DayResetTime(t: real)
    requires 0.0 <= t
    ensures ResetsAt(Daily, t) == (DayOf(t) + 1) as real * 86400.0
  {
    DateOfDayNumber(DayOf(t));
    NextDayNumber(DateAt(t));
  }

  lemma MonthEndIsNear(n: nat)
    ensures n < MonthEnd(n) <= n + 31
  {
    DateOfDayNumber(n);
    DaysToFirstOfNext(DateOf(n));
  }

  /** From inside day `m` it is at most `days` days to the midnight that ends day `n - 1`. */
  lemma DaysCover(t: real, m: nat, n: int, days: nat)
    requires m as real * 86400.0 <= t < (m + 1) as real * 86400.0 && m < n <= m + days
    ensures t < n as real * 86400.0 <= t + days as real * 86400.0
  {
  }

  lemma DayTtlCovers(t: real)
    requires 0.0 <= t
    ensures t < ResetsAt(Daily, t) <= t + DAILY_TTL as real
  {
    var m := DayOf(t);
    DayResetTime(t);
    DaysCover(t, m, m + 1, 1);
  }

  lemma MonthTtlCovers(t: real)
    requires 0.0 <= t
    ensures t < ResetsAt(Monthly, t) <= t + MONTHLY_TTL as real
  {
    var m := DayOf(t);
    MonthResetTime(t);
    MonthEndIsNear(m);
    DaysCover(t, m, MonthEnd(m), 31);
  }

  /** A counter whose expiry is set inside a period cannot expire before the period ends. */
  lemma TtlCoversPeriod(p: Period, t: real)
    requires 0.0 <= t
    ensures t < ResetsAt(p, t) <= t + PeriodTtl(p) as real
  {
    match p
    case Daily => DayTtlCovers(t);
    case Monthly => MonthTtlCovers(t);
  }

  /** Two digits that stand for a number. */
  predicate ReadsTwo(s: string, n: int) {
    |s| == 2 && IsDigit(s[0]) && IsDigit(s[1]) && 10 * (s[0] as int - '0' as int) + (s[1] as int - '0' as int) == n
  }

  lemma PaddedTwo(n: nat)
    requires n < 100
    ensures ReadsTwo(Padded(n, 2), n)
  {
    assert Padded(n, 2) == [DigitChar(n / 10)] + [DigitChar(n % 10)] by {
      assert Padded(n / 10, 1) == [] + [DigitChar(n / 10 % 10)];
    }
    DigitCharIs(n / 10);
    DigitCharIs(n % 10);
  }

  lemma DigitCharIs(d: int)
    requires 0 <= d < 10
    ensures DigitChar(d) as int == '0' as int + d
  {
  }

  lemma Slices(year: string, month: string, rest: string, text: string)
    requires |month| == 2 && text == year + ("-" + (month + rest))
    ensures var k := |year|;
            && |text| == k + 3 + |rest| && text[..k] == year && text[k] == '-'
            && text[k + 1..k + 3] == month && text[k + 3..] == rest
  {
  }

  /** The bucket text reads YYYY-MM-DD, or YYYY-MM: the numbers of the date, with two digits for month
      and day, and nothing else. */
  lemma BucketReadsBack(p: Period, t: real)
    requires 0.0 <= t
    ensures var text, d := PeriodBucket(p, t), DateAt(t);
            exists k: nat ::
              && 0 < k && |text| == k + (if p.Daily? then 6 else 3) && AllDigits(text[..k])
              && DecimalValue(text[..k]) == d.year && text[k] == '-' && ReadsTwo(text[k + 1..k + 3], d.month)
              && (p.Daily? ==> text[k + 3] == '-' && ReadsTwo(text[k + 4..], d.day))
  {
    var d := DateAt(t);
    var text, rest := PeriodBucket(p, t), if p.Daily? then "-" + Padded(d.day, 2) else "";
    assert text == Decimal(d.year) + ("-" + (Padded(d.month, 2) + rest));
    Slices(Decimal(d.year), Padded(d.month, 2), rest, text);
    DecimalRoundTrip(d.year);
    PaddedTwo(d.month);
    PaddedTwo(d.day);
    var k := |Decimal(d.year)|;
    assert AllDigits(text[..k]);
    assert text[k + 3..] == rest && (p.Daily? ==> text[k + 4..] == rest[1..]);
  }

  predicate AllDigits(s: string) {
    forall i :: 0 <= i < |s| ==> IsDigit(s[i])
  }
}
