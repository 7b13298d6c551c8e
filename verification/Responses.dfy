/** What the proxy sends to its callers (`src/gateway/routes/proxy.py`): hop-by-hop filtering of
    response headers and the answer built from a stored response. */
module Responses {
  import opened Wrappers
  import opened Wire

  datatype Response = Response(statusCode: nat, headers: Headers, body: seq<Byte>)

  function LowerChar(c: char): char {
    if 'A' <= c <= 'Z' then (c as int + 32) as char else c
  }

  function Lower(s: string): string {
    seq(|s|, i requires 0 <= i < |s| => LowerChar(s[i]))
  }

  const HOP_BY_HOP := {"connection", "keep-alive", "proxy-authenticate", "proxy-authorization", "te",
                       "trailers", "transfer-encoding", "upgrade"}

  predicate HopByHop(name: string) {
    Lower(name) in HOP_BY_HOP
  }

  /** `_filter_response_headers`. */
  function FilterHeaders(h: Headers): Headers {
    if h == [] then []
    else if HopByHop(h[0].0) then FilterHeaders(h[1..])
    else [h[0]] + FilterHeaders(h[1..])
  }

  predicate Ok(statusCode: nat) {
    200 <= statusCode < 300
  }

  /** The stored form of a vendor answer. */
  function ToStore(statusCode: nat, headers: Headers, body: seq<Byte>, at: Stamp): CachedResponse {
    CachedResponse(statusCode, FilterHeaders(headers), body, at)
  }

  /** The lock holder's own response. */
  function Direct(statusCode: nat, headers: Headers, body: seq<Byte>): Response {
    Response(statusCode, FilterHeaders(headers), body)
  }

  /** `_cached_to_response`. */
  function FromStore(c: CachedResponse): Response {
    Response(c.statusCode, DictSet(FilterHeaders(c.headers), "X-Cache", "HIT"), c.body)
  }

  lemma {:induction false} FilterKeeps(h: Headers, p: (string, string))
    ensures p in FilterHeaders(h) <==> p in h && !HopByHop(p.0)
  {
    if h != [] {
      FilterKeeps(h[1..], p);
      assert h == [h[0]] + h[1..];
    }
  }

  // ----------------------------------------------------------------------------------------
  // What the filter means
  // ----------------------------------------------------------------------------------------

  /** `c` is the small letter or other character `small`, or its capital. */
  predicate SameLetter(c: char, small: char) {
    c == small || ('A' <= c <= 'Z' && small as int == c as int + 32)
  }

  /** `name` is `small`, in whatever case. */
  predicate SameName(name: string, small: string) {
    |name| == |small| && forall i :: 0 <= i < |name| ==> SameLetter(name[i], small[i])
  }

  /** The name of a header that concerns one connection only. */
  predicate OneHop(name: string) {
    || SameName(name, "connection") || SameName(name, "keep-alive")
    || SameName(name, "proxy-authenticate") || SameName(name, "proxy-authorization")
    || SameName(name, "te") || SameName(name, "trailers") || SameName(name, "transfer-encoding") || SameName(name, "upgrade")
  }

  /** The headers of `all` that do not concern one connection only, in their order. */
  ghost predicate EndToEnd(all: Headers, kept: Headers) {
    exists picked: seq<nat> :: Picks(all, kept, picked)
  }

  /** `picked` are the places in `all` of the headers kept. */
  ghost predicate Picks(all: Headers, kept: Headers, picked: seq<nat>) {
    && |picked| == |kept|
    && (forall i, j :: 0 <= i < j < |picked| ==> picked[i] < picked[j])
    && (forall i :: 0 <= i < |picked| ==> picked[i] < |all| && kept[i] == all[picked[i]])
    && (forall k :: 0 <= k < |all| ==> (k in picked <==> !OneHop(all[k].0)))
  }

  lemma LowerAsCapital(c: char, small: char)
    requires small == '-' || 'a' <= small <= 'z'
    ensures LowerChar(c) == small <==> SameLetter(c, small)
  {
  }

  lemma LowerIs(name: string, hop: string)
    requires forall i :: 0 <= i < |hop| ==> hop[i] == '-' || 'a' <= hop[i] <= 'z'
    ensures Lower(name) == hop <==> SameName(name, hop)
  {
    if |name| == |hop| {
      forall i | 0 <= i < |name|
        ensures Lower(name)[i] == hop[i] <==> SameLetter(name[i], hop[i])
      {
        LowerAsCapital(name[i], hop[i]);
      }
    }
  }

  lemma HopByHopIsOneHop(name: string)
    ensures HopByHop(name) <==> OneHop(name)
  {
    LowerIs(name, "connection");
    LowerIs(name, "keep-alive");
    LowerIs(name, "proxy-authenticate");
    LowerIs(name, "proxy-authorization");
    LowerIs(name, "te");
    LowerIs(name, "trailers");
    LowerIs(name, "transfer-encoding");
    LowerIs(name, "upgrade");
  }

  lemma Shifted(rest: seq<nat>, picked: seq<nat>, k: nat)
    requires |picked| == |rest| && forall i :: 0 <= i < |rest| ==> picked[i] == rest[i] + 1
    ensures k in picked <==> 0 < k && k - 1 in rest
  {
    if 0 < k && k - 1 in rest {
      var i :| 0 <= i < |rest| && rest[i] == k - 1;
      assert picked[i] == k;
    }
  }

  lemma {:induction false} FilterPicks(h: Headers) returns (picked: seq<nat>)
    ensures Picks(h, FilterHeaders(h), picked)
  {
    picked := [];
    if h != [] {
      var rest := FilterPicks(h[1..]);
      HopByHopIsOneHop(h[0].0);
      var later := seq(|rest|, i requires 0 <= i < |rest| => rest[i] + 1);
      if HopByHop(h[0].0) {
        picked := later;
        DroppedFirst(h, FilterHeaders(h), rest, picked);
      } else {
        picked := [0] + later;
        KeptFirst(h, FilterHeaders(h), rest, later, picked);
      }
    }
  }

  lemma DroppedFirst(h: Headers, kept: Headers, rest: seq<nat>, picked: seq<nat>)
    requires h != [] && OneHop(h[0].0) && Picks(h[1..], kept, rest)
    requires |picked| == |rest| && forall i :: 0 <= i < |rest| ==> picked[i] == rest[i] + 1
    ensures Picks(h, kept, picked)
  {
    forall k | 0 <= k < |h|
      ensures k in picked <==> !OneHop(h[k].0)
    {
      Shifted(rest, picked, k);
      assert 0 < k ==> h[1..][k - 1] == h[k];
    }
  }

  lemma KeptFirst(h: Headers, kept: Headers, rest: seq<nat>, later: seq<nat>, picked: seq<nat>)
    requires h != [] && !OneHop(h[0].0) && kept != [] && kept[0] == h[0] && Picks(h[1..], kept[1..], rest)
    requires |later| == |rest| && forall i :: 0 <= i < |rest| ==> later[i] == rest[i] + 1
    requires picked == [0] + later
    ensures Picks(h, kept, picked)
  {
    forall k: nat | k < |h|
      ensures k in picked <==> !OneHop(h[k].0)
    {
      Shifted(rest, later, k);
      assert 0 < k ==> h[1..][k - 1] == h[k];
    }
    FirstInPlace(h, kept, rest, picked);
  }

  lemma FirstInPlace(h: Headers, kept: Headers, rest: seq<nat>, picked: seq<nat>)
    requires |h| > 0 && |kept| == |picked| == |rest| + 1 && kept[0] == h[0] && picked[0] == 0
    requires forall i :: 0 <= i < |rest| ==> rest[i] < |h| - 1 && kept[1..][i] == h[1..][rest[i]]
    requires forall i :: 0 < i < |picked| ==> picked[i] == rest[i - 1] + 1
    ensures forall i :: 0 <= i < |picked| ==> picked[i] < |h| && kept[i] == h[picked[i]]
  {
    forall i | 0 < i < |picked|
      ensures picked[i] < |h| && kept[i] == h[picked[i]]
    {
      assert kept[1..][i - 1] == h[1..][rest[i - 1]];
    }
  }

  /** The filter keeps exactly the end-to-end headers, in order. */
  lemma FilterIsEndToEnd(h: Headers)
    ensures EndToEnd(h, FilterHeaders(h))
  {
    var picked := FilterPicks(h);
  }

  lemma {:induction false} FilterIdempotent(h: Headers)
    ensures FilterHeaders(FilterHeaders(h)) == FilterHeaders(h)
  {
    if h != [] {
      FilterIdempotent(h[1..]);
      var f := FilterHeaders(h);
      assert !HopByHop(h[0].0) ==> f[1..] == FilterHeaders(h[1..]);
    }
  }

  lemma {:induction false} FilterDistinct(h: Headers)
    requires DistinctKeys(h)
    ensures DistinctKeys(FilterHeaders(h))
  {
    if h != [] {
      FilterDistinct(h[1..]);
      var rest := FilterHeaders(h[1..]);
      forall j | 0 <= j < |rest|
        ensures rest[j].0 != h[0].0
      {
        FilterKeeps(h[1..], rest[j]);
        assert rest[j] in rest;
      }
    }
  }

  /** What the gateway stores: a readable 2xx answer without hop-by-hop headers. */
  predicate Storable(c: CachedResponse) {
    Ok(c.statusCode) && WellFormed(c) && FilterHeaders(c.headers) == c.headers
  }

  lemma AnswerStorable(statusCode: nat, headers: Headers, body: seq<Byte>, at: Stamp)
    requires Ok(statusCode) && DistinctKeys(headers) && ValidStamp(at)
    ensures Storable(ToStore(statusCode, headers, body, at))
  {
    FilterDistinct(headers);
    FilterIdempotent(headers);
  }

  /** A caller served from the store gets the status, body and headers of the response that the
      lock holder itself returned, with the one entry `X-Cache: HIT` set on top. */
  lemma ServedAsDirect(statusCode: nat, headers: Headers, body: seq<Byte>, at: Stamp)
    requires Ok(statusCode) && DistinctKeys(headers) && ValidStamp(at)
    ensures var stored := ToStore(statusCode, headers, body, at);
            Deserialise(Serialise(stored)) == Some(stored)
            && SameButMarked(FromStore(stored), Direct(statusCode, headers, body))
  {
    AnswerStorable(statusCode, headers, body, at);
    RoundTrip(ToStore(statusCode, headers, body, at));
    MarkedOnce(ToStore(statusCode, headers, body, at));
  }

  /** `served` is `direct` with `X-Cache: HIT` set: where that header was, or as a new last one. */
  ghost predicate SameButMarked(served: Response, direct: Response) {
    && served.statusCode == direct.statusCode && served.body == direct.body
    && ("X-Cache" !in Names(direct.headers) ==> served.headers == direct.headers + [("X-Cache", "HIT")])
    && (forall i :: 0 <= i < |direct.headers| && direct.headers[i].0 == "X-Cache" ==>
          served.headers == direct.headers[i := ("X-Cache", "HIT")])
  }

  lemma MarkedOnce(c: CachedResponse)
    requires Storable(c)
    ensures SameButMarked(FromStore(c), Response(c.statusCode, c.headers, c.body))
  {
    if "X-Cache" !in Names(c.headers) {
      DictSetFresh(c.headers, "X-Cache", "HIT");
    }
    forall i | 0 <= i < |c.headers| && c.headers[i].0 == "X-Cache"
      ensures FromStore(c).headers == c.headers[i := ("X-Cache", "HIT")]
    {
      DictSetInPlace(c.headers, i, "HIT");
    }
  }
}
