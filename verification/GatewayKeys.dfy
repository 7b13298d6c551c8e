/** The Redis keys of the pipeline as text. The pipeline's keys are values of a datatype; the texts
    that the code builds for different ones are different. */
module GatewayKeys {
  import opened Calendar
  import opened Text
  import opened Wrappers
  import opened Json
  import opened Keys
  import opened Gateway

  /** `quota_key` of the bucket of instant `t`. */
  function QuotaKeyText(ref: QuotaRef, t: real): string
    requires 0.0 <= t
  {
    "quota:" + (ref.vendorId + ":" + (ref.keyId + ":" + PeriodBucket(ref.period, t)))
  }

  /** A day's bucket is never a month's. */
  lemma PeriodsDiffer(t: real, u: real)
    requires 0.0 <= t && 0.0 <= u
    ensures PeriodBucket(Daily, t) != PeriodBucket(Monthly, u)
  {
    var a, b := DateAt(t), DateAt(u);
    var day := "-" + Padded(a.day, 2);
    assert PeriodBucket(Daily, t) == MonthText(a) + day;
    assert PeriodBucket(Monthly, u) == MonthText(b) + [];
    if PeriodBucket(Daily, t) == PeriodBucket(Monthly, u) {
      MonthTextDetermines(a, day, b, []);
    }
  }

  lemma SamePeriod(ref: QuotaRef, t: real, ref': QuotaRef, u: real)
    requires 0.0 <= t && 0.0 <= u
    ensures PeriodBucket(ref.period, t) == PeriodBucket(ref'.period, u)
       <==> ref.period == ref'.period && PeriodIndex(ref.period, t) == PeriodIndex(ref'.period, u)
  {
    if ref.period == ref'.period {
      BucketIffIndex(ref.period, t, u);
    } else if ref.period == Daily {
      PeriodsDiffer(t, u);
    } else {
      PeriodsDiffer(u, t);
    }
  }

  /** With ids that have no colon, two quota keys are the same text exactly when they are the same
      counter: same vendor, same API key, same period and same day or month. */
  lemma QuotaKeysUnambiguous(ref: QuotaRef, t: real, ref': QuotaRef, u: real)
    requires 0.0 <= t && 0.0 <= u
    requires ':' !in ref.vendorId && ':' !in ref'.vendorId && ':' !in ref.keyId && ':' !in ref'.keyId
    ensures QuotaKeyText(ref, t) == QuotaKeyText(ref', u)
       <==> QuotaKey(ref, PeriodIndex(ref.period, t)) == QuotaKey(ref', PeriodIndex(ref'.period, u))
  {
    SamePeriod(ref, t, ref', u);
    if QuotaKeyText(ref, t) == QuotaKeyText(ref', u) {
      var a, b := PeriodBucket(ref.period, t), PeriodBucket(ref'.period, u);
      DropPrefix("quota:", ref.vendorId + ":" + (ref.keyId + ":" + a), ref'.vendorId + ":" + (ref'.keyId + ":" + b));
      SplitAtColon(ref.vendorId, ref.keyId + ":" + a, ref'.vendorId, ref'.keyId + ":" + b);
      SplitAtColon(ref.keyId, a, ref'.keyId, b);
    }
  }

  /** A cache key, a lock and a result key are never a quota key. */
  lemma QuotaKeysApart(sha: Digest, ref: QuotaRef, t: real, slug: string, path: string, params: Option<Pairs>, body: Body)
    requires 0.0 <= t
    ensures QuotaKeyText(ref, t) != MakeCacheKey(sha, slug, path, params, body)
    ensures QuotaKeyText(ref, t) != MakeDedupKey(sha, slug, path, params, body)
    ensures QuotaKeyText(ref, t) != MakeDedupKey(sha, slug, path, params, body) + ":result"
  {
    assert QuotaKeyText(ref, t)[0] == 'q';
    assert MakeCacheKey(sha, slug, path, params, body)[0] == 'c';
    assert MakeDedupKey(sha, slug, path, params, body)[0] == 'd';
  }
}
