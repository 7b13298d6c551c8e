/** Flushing the response cache: the SCAN loop of `src/gateway/cache/response_cache.py` and the
    patterns it is called with. A page is Redis's reply to one SCAN command. */
module Flush {
  import opened Numbers
  import opened Wrappers
  import opened RedisStore
  import opened Json
  import opened Keys

  const GLOB_CHARS := {'*', '?', '[', ']', '\\'}

  predicate GlobFree(s: string) {
    forall i :: 0 <= i < |s| ==> s[i] !in GLOB_CHARS
  }

  function Low(a: char, b: char): char {
    if a <= b then a else b
  }

  function High(a: char, b: char): char {
    if a <= b then b else a
  }

  /** The inside of a character class read against `c`: whether one of its characters, escaped
      characters and ranges is `c`, and what of the pattern follows the class. A class that is not
      closed ends with the pattern. */
  function ReadClass(pattern: string, c: char): (r: (bool, string))
    ensures |r.1| <= |pattern|
  {
    if pattern == "" then (false, "")
    else if 2 <= |pattern| && pattern[0] == '\\' then
      var (found, rest) := ReadClass(pattern[2..], c);
      (found || pattern[1] == c, rest)
    else if pattern[0] == ']' then (false, pattern[1..])
    else if 3 <= |pattern| && pattern[1] == '-' then
      var (found, rest) := ReadClass(pattern[3..], c);
      (found || Low(pattern[0], pattern[2]) <= c <= High(pattern[0], pattern[2]), rest)
    else
      var (found, rest) := ReadClass(pattern[1..], c);
      (found || pattern[0] == c, rest)
  }

  /** A class, after its opening bracket; a caret negates it. */
  function MatchClass(pattern: string, c: char): (r: (bool, string))
    ensures |r.1| <= |pattern|
  {
    if pattern != "" && pattern[0] == '^' then
      var (found, rest) := ReadClass(pattern[1..], c);
      (!found, rest)
    else ReadClass(pattern, c)
  }

  /** Redis's MATCH. */
  predicate GlobMatch(pattern: string, text: string)
    decreases |pattern| + |text|
  {
    if pattern == "" then text == ""
    else if pattern[0] == '*' then GlobMatch(pattern[1..], text) || (text != "" && GlobMatch(pattern, text[1..]))
    else if text == "" then false
    else if pattern[0] == '?' then GlobMatch(pattern[1..], text[1..])
    else if pattern[0] == '[' then
      var (found, rest) := MatchClass(pattern[1..], text[0]);
      found && GlobMatch(rest, text[1..])
    else if pattern[0] == '\\' && 2 <= |pattern| then text[0] == pattern[1] && GlobMatch(pattern[2..], text[1..])
    else text[0] == pattern[0] && GlobMatch(pattern[1..], text[1..])
  }

  lemma {:induction false} StarMatchesAll(text: string)
    ensures GlobMatch("*", text)
  {
    if text != "" {
      StarMatchesAll(text[1..]);
    }
  }

  /** A literal followed by a star matches exactly the texts that start with the literal. */
  lemma {:induction false} LiteralStar(literal: string, text: string)
    requires GlobFree(literal)
    ensures GlobMatch(literal + "*", text) <==> literal <= text
  {
    var pattern := literal + "*";
    if literal == "" {
      assert pattern == "*";
      StarMatchesAll(text);
    } else {
      assert pattern[0] == literal[0] && pattern[1..] == literal[1..] + "*";
      if text != "" {
        LiteralStar(literal[1..], text[1..]);
        assert literal <= text <==> literal[0] == text[0] && literal[1..] <= text[1..];
      }
    }
  }

  function VendorPattern(slug: string): string {
    "cache:" + (slug + ":*")
  }

  lemma KeyOf(sha: Digest, slug: string, path: string, params: Option<Pairs>, body: Body) returns (tail: string)
    ensures MakeCacheKey(sha, slug, path, params, body) == "cache:" + (slug + ":" + tail)
  {
    tail := Strip(path) + ":" + sha(Utf8(ParamsText(params)) + BodyBytes(body));
  }

  /** With colon-free slugs and no glob character in the flushed one, a vendor's pattern matches
      that vendor's cache keys and no other vendor's. */
  lemma VendorPatternIsExact(sha: Digest, slug: string, slug': string, path: string, params: Option<Pairs>, body: Body)
    requires IsDigest(sha) && GlobFree(slug) && ':' !in slug && ':' !in slug'
    ensures GlobMatch(VendorPattern(slug), MakeCacheKey(sha, slug', path, params, body)) <==> slug' == slug
  {
    var tail := KeyOf(sha, slug', path, params, body);
    PatternMatchesOwn(slug, slug', tail);
  }

  lemma PatternMatchesOwn(slug: string, slug': string, tail: string)
    requires GlobFree(slug) && ':' !in slug && ':' !in slug'
    ensures GlobMatch(VendorPattern(slug), "cache:" + (slug' + ":" + tail)) <==> slug' == slug
  {
    var literal, key := "cache:" + (slug + ":"), "cache:" + (slug' + ":" + tail);
    assert VendorPattern(slug) == literal + "*";
    LiteralStar(literal, key);
    if slug' == slug {
      assert key == literal + tail;
    } else if literal <= key {
      OtherSlug(slug, slug', tail);
    }
  }

  lemma OtherSlug(slug: string, slug': string, tail: string)
    requires ':' !in slug && ':' !in slug' && "cache:" + (slug + ":") <= "cache:" + (slug' + ":" + tail)
    ensures slug == slug'
  {
    var literal, key := "cache:" + (slug + ":"), "cache:" + (slug' + ":" + tail);
    var rest := key[|literal|..];
    assert key == literal + rest;
    DropPrefix("cache:", slug + ":" + rest, slug' + ":" + tail);
    SplitAtColon(slug, rest, slug', tail);
  }

  /** A flush never reaches a key outside the response cache, whatever the slug. */
  lemma {:induction false} PatternStaysInCache(rest: string, key: string)
    requires GlobMatch("cache:" + rest, key)
    ensures "cache:" <= key
  {
    LiteralFirst("cache:", rest, key);
  }

  lemma {:induction false} LiteralFirst(literal: string, rest: string, text: string)
    requires GlobFree(literal) && GlobMatch(literal + rest, text)
    ensures literal <= text
  {
    if literal != "" {
      assert (literal + rest)[1..] == literal[1..] + rest;
      LiteralFirst(literal[1..], rest, text[1..]);
    }
  }

  lemma StarReaches(tail: string)
    ensures GlobMatch("cache:" + ("a*" + ":*"), "cache:" + ("ab" + ":" + tail))
  {
    StarMatchesAll(tail);
    assert (":" + tail)[1..] == tail && GlobMatch(":*", ":" + tail);
    assert ("b:" + tail)[1..] == ":" + tail && GlobMatch("*:*", "b:" + tail);
    LiteralThen("cache:a", "*:*", "b:" + tail);
    assert "cache:" + ("a*" + ":*") == "cache:a" + "*:*";
    assert "cache:" + ("ab" + ":" + tail) == "cache:a" + ("b:" + tail);
  }

  lemma ColonReaches(tail: string)
    ensures GlobMatch("cache:" + ("a" + ":*"), "cache:" + ("a:b" + ":" + tail))
  {
    var literal := "cache:a:";
    assert "cache:" + ("a" + ":*") == literal + "*";
    assert "cache:" + ("a:b" + ":" + tail) == literal + ("b:" + tail);
    LiteralStar(literal, literal + ("b:" + tail));
  }

  /** Both hypotheses on slugs are needed: flushing `a*` also empties `ab`, and flushing `a` also
      empties the vendor `a:b`. */
  lemma FlushReachesFurther(sha: Digest, path: string, params: Option<Pairs>, body: Body)
    ensures GlobMatch(VendorPattern("a*"), MakeCacheKey(sha, "ab", path, params, body))
    ensures GlobMatch(VendorPattern("a"), MakeCacheKey(sha, "a:b", path, params, body))
  {
    var tail := KeyOf(sha, "ab", path, params, body);
    StarReaches(tail);
    tail := KeyOf(sha, "a:b", path, params, body);
    ColonReaches(tail);
  }

  lemma {:induction false} LiteralThen(literal: string, pattern: string, text: string)
    requires GlobFree(literal) && GlobMatch(pattern, text)
    ensures GlobMatch(literal + pattern, literal + text)
  {
    if literal == "" {
      assert literal + pattern == pattern && literal + text == text;
    } else {
      LiteralThen(literal[1..], pattern, text);
      assert (literal + pattern)[1..] == literal[1..] + pattern && (literal + text)[1..] == literal[1..] + text;
    }
  }

  // ----------------------------------------------------------------------------------------
  // The loop
  // ----------------------------------------------------------------------------------------

  /** One SCAN reply and when it came. */
  datatype Page = Page(cursor: nat, keys: seq<string>, at: Instant)

  type Store = map<string, Entry>

  /** The live keys that match. */
  function Matching(store: Store, pattern: string, now: Instant): set<string> {
    set k | k in store && GlobMatch(pattern, k) && Alive(store, k, now)
  }

  predicate Returned(pages: seq<Page>, k: string) {
    exists i :: 0 <= i < |pages| && k in pages[i].keys
  }

  lemma ReturnedSnoc(pages: seq<Page>, n: nat)
    requires n < |pages|
    ensures forall k :: Returned(pages[..n + 1], k) <==> Returned(pages[..n], k) || k in pages[n].keys
  {
    var m := n + 1;
    forall k
      ensures Returned(pages[..m], k) <==> Returned(pages[..n], k) || k in pages[n].keys
    {
      if Returned(pages[..n], k) {
        var i :| 0 <= i < n && k in pages[..n][i].keys;
        assert k in pages[..m][i].keys;
      }
      if k in pages[n].keys {
        assert k in pages[..m][n].keys;
      }
      if Returned(pages[..m], k) {
        var i :| 0 <= i < m && k in pages[..m][i].keys;
        assert i < n ==> k in pages[..n][i].keys;
      }
    }
  }

  /** What Redis promises of a full iteration: only the last reply has cursor 0, all keys match,
      and every matching key that lives through the iteration is returned at least once. */
  ghost predicate FullScan(pages: seq<Page>, store: Store, pattern: string, now: Instant) {
    && 0 < |pages|
    && (forall i :: 0 <= i < |pages| ==> (pages[i].cursor == 0 <==> i == |pages| - 1))
    && (forall i :: 0 <= i < |pages| ==> now <= pages[i].at)
    && (forall i, j :: 0 <= i < j < |pages| ==> pages[i].at <= pages[j].at)
    && (forall i, k :: 0 <= i < |pages| && k in pages[i].keys ==> GlobMatch(pattern, k))
    && (forall k :: k in Matching(store, pattern, pages[|pages| - 1].at) ==> Returned(pages, k))
  }

  /** The store after the keys of some pages are deleted. */
  function Without(store: Store, pages: seq<Page>): Store {
    map k | k in store && !Returned(pages, k) :: store[k]
  }

  /** What the loop has deleted and counted when it has handled `pages`: `gone` holds the keys it
      returned that were live when it deleted them. */
  ghost predicate Counted(gone: set<string>, store: Store, pages: seq<Page>, pattern: string, start: Instant, now: Instant) {
    && gone <= Matching(store, pattern, start)
    && (forall k :: k in gone ==> Returned(pages, k))
    && (forall k :: k in Matching(store, pattern, now) && Returned(pages, k) ==> k in gone)
  }

  lemma PageDeleted(store: Store, pages: seq<Page>, n: nat, keys: set<string>)
    requires n < |pages| && keys == KeysOf(pages[n])
    ensures Without(store, pages[..n]) - keys == Without(store, pages[..n + 1])
  {
    ReturnedSnoc(pages, n);
  }

  lemma LiveIsNew(store: Store, pages: seq<Page>, n: nat, pattern: string, start: Instant, was: Instant, now: Instant,
                  gone: set<string>, live: set<string>)
    requires n < |pages| && start <= now && (forall k :: k in pages[n].keys ==> GlobMatch(pattern, k))
    requires Counted(gone, store, pages[..n], pattern, start, was)
    requires live == LiveAmong(KeysOf(pages[n]), Without(store, pages[..n]), now)
    ensures gone !! live && live <= Matching(store, pattern, start)
    ensures forall k :: k in live <==> k in KeysOf(pages[n]) && k in Matching(store, pattern, now) && !Returned(pages[..n], k)
  {
  }

  lemma PageCounted(store: Store, pages: seq<Page>, n: nat, pattern: string, start: Instant, was: Instant, now: Instant,
                    gone: set<string>, live: set<string>)
    requires n < |pages| && start <= was <= now && (forall k :: k in pages[n].keys ==> GlobMatch(pattern, k))
    requires Counted(gone, store, pages[..n], pattern, start, was)
    requires live == LiveAmong(KeysOf(pages[n]), Without(store, pages[..n]), now)
    ensures Counted(gone + live, store, pages[..n + 1], pattern, start, now)
    ensures |gone + live| == |gone| + |live|
  {
    ReturnedSnoc(pages, n);
    LiveIsNew(store, pages, n, pattern, start, was, now, gone, live);
    forall k | k in Matching(store, pattern, now) && Returned(pages[..n + 1], k)
      ensures k in gone + live
    {
      assert k in Matching(store, pattern, was);
    }
  }

  /** Where the loop is when it has handled the first `n` pages. */
  ghost predicate Swept(left: Store, now: Instant, deleted: nat, gone: set<string>,
                        store: Store, start: Instant, pattern: string, pages: seq<Page>, n: nat) {
    && n <= |pages| && start <= now && (n < |pages| ==> now <= pages[n].at) && (0 < n ==> now == pages[n - 1].at)
    && left == Without(store, pages[..n]) && deleted == |gone|
    && Counted(gone, store, pages[..n], pattern, start, now)
  }

  lemma SweepBegins(store: Store, start: Instant, pattern: string, pages: seq<Page>)
    requires FullScan(pages, store, pattern, start)
    ensures Swept(store, start, 0, {}, store, start, pattern, pages, 0)
  {
    assert Without(store, pages[..0]) == store;
  }

  lemma SweepGoesOn(left: Store, was: Instant, deleted: nat, gone: set<string>, live: set<string>,
                    store: Store, start: Instant, pattern: string, pages: seq<Page>, n: nat)
    requires FullScan(pages, store, pattern, start) && n < |pages|
    requires Swept(left, was, deleted, gone, store, start, pattern, pages, n)
    requires live == LiveAmong(KeysOf(pages[n]), left, pages[n].at)
    ensures Swept(left - KeysOf(pages[n]), pages[n].at, deleted + |live|, gone + live, store, start, pattern, pages, n + 1)
  {
    var m := n + 1;
    PageDeleted(store, pages, n, KeysOf(pages[n]));
    PageCounted(store, pages, n, pattern, start, was, pages[n].at, gone, live);
    assert Without(store, pages[..m]) == left - KeysOf(pages[n]);
  }

  /** A finished flush: of the store its other keys are left, untouched; no matching key is live
      any more; and the count is the number of matching keys at the start, except for those that
      expired before the loop came to them. */
  predicate Flushed(store: Store, left: Store, pattern: string, start: Instant, now: Instant, deleted: nat) {
    && (forall k :: k in left ==> k in store && left[k] == store[k])
    && (forall k :: k in store && !GlobMatch(pattern, k) ==> k in left)
    && Matching(left, pattern, now) == {}
    && |Matching(store, pattern, now)| <= deleted <= |Matching(store, pattern, start)|
  }

  lemma SweepEnds(left: Store, now: Instant, deleted: nat, gone: set<string>,
                  store: Store, start: Instant, pattern: string, pages: seq<Page>, n: nat)
    requires FullScan(pages, store, pattern, start) && n == |pages|
    requires Swept(left, now, deleted, gone, store, start, pattern, pages, n)
    ensures Flushed(store, left, pattern, start, now, deleted)
  {
    assert pages[..n] == pages;
    assert Matching(left, pattern, now) <= Matching(store, pattern, now);
    SubsetSize(Matching(store, pattern, now), gone);
    SubsetSize(gone, Matching(store, pattern, start));
  }

  function KeysOf(page: Page): set<string> {
    set k | k in page.keys
  }

  /** DEL of a page's keys, unless it has none. */
  method DeletePage(redis: Redis<string>, page: Page) returns (removed: nat)
    modifies redis`store
    ensures redis.store == old(redis.store) - KeysOf(page)
    ensures removed == |LiveAmong(KeysOf(page), old(redis.store), redis.now)|
  {
    if page.keys == [] {
      assert KeysOf(page) == {} && redis.store - {} == redis.store;
      return 0;
    }
    removed := redis.Delete(KeysOf(page));
  }

  /** A reply of SCAN arrives and its keys are deleted. */
  method NextPage(redis: Redis<string>, pages: seq<Page>, n: nat, ghost deleted: nat, ghost gone: set<string>,
                  ghost store: Store, ghost start: Instant, ghost pattern: string)
    returns (removed: nat, ghost gone': set<string>)
    requires n < |pages| && FullScan(pages, store, pattern, start)
    requires Swept(redis.store, redis.now, deleted, gone, store, start, pattern, pages, n)
    modifies redis`now, redis`store
    ensures Swept(redis.store, redis.now, deleted + removed, gone', store, start, pattern, pages, n + 1)
  {
    ghost var live := LiveAmong(KeysOf(pages[n]), redis.store, pages[n].at);
    SweepGoesOn(redis.store, redis.now, deleted, gone, live, store, start, pattern, pages, n);
    gone' := gone + live;
    redis.Tick(pages[n].at - redis.now);
    removed := DeletePage(redis, pages[n]);
  }

  /** `_delete_by_pattern`, with no other writer. */
  method DeleteByPattern(redis: Redis<string>, pattern: string, pages: seq<Page>) returns (deleted: nat)
    requires FullScan(pages, redis.store, pattern, redis.now)
    modifies redis`now, redis`store
    ensures Flushed(old(redis.store), redis.store, pattern, old(redis.now), redis.now, deleted)
  {
    ghost var store, start := redis.store, redis.now;
    ghost var gone: set<string> := {};
    deleted := 0;
    var n := 0;
    SweepBegins(store, start, pattern, pages);
    while true
      invariant n < |pages| && Swept(redis.store, redis.now, deleted, gone, store, start, pattern, pages, n)
      decreases |pages| - n
    {
      var cursor := pages[n].cursor;
      var removed;
      removed, gone := NextPage(redis, pages, n, deleted, gone, store, start, pattern);
      deleted := deleted + removed;
      n := n + 1;
      if cursor == 0 {
        break;
      }
    }
    SweepEnds(redis.store, redis.now, deleted, gone, store, start, pattern, pages, n);
  }

  /** `flush_vendor`: nothing of the vendor's cache is left, and nothing else is touched. */
  method FlushVendor(redis: Redis<string>, slug: string, pages: seq<Page>) returns (deleted: nat)
    requires FullScan(pages, redis.store, VendorPattern(slug), redis.now)
    modifies redis`now, redis`store
    ensures Flushed(old(redis.store), redis.store, VendorPattern(slug), old(redis.now), redis.now, deleted)
  {
    assert "cache:" + slug + ":*" == VendorPattern(slug);
    deleted := DeleteByPattern(redis, "cache:" + slug + ":*", pages);
  }

  /** `flush_all`. */
  method FlushAll(redis: Redis<string>, pages: seq<Page>) returns (deleted: nat)
    requires FullScan(pages, redis.store, "cache:*", redis.now)
    modifies redis`now, redis`store
    ensures Flushed(old(redis.store), redis.store, "cache:*", old(redis.now), redis.now, deleted)
  {
    deleted := DeleteByPattern(redis, "cache:*", pages);
  }

  /** What a finished flush of a vendor means for the keys the gateway builds. */
  lemma VendorFlushed(sha: Digest, store: Store, left: Store, slug: string, start: Instant, now: Instant, deleted: nat,
                      slug': string, path: string, params: Option<Pairs>, body: Body)
    requires IsDigest(sha) && GlobFree(slug) && ':' !in slug && ':' !in slug'
    requires Flushed(store, left, VendorPattern(slug), start, now, deleted)
    ensures var key := MakeCacheKey(sha, slug', path, params, body);
            if slug' == slug then !Alive(left, key, now)
            else (key in store <==> key in left) && (key in store ==> left[key] == store[key])
  {
    var key := MakeCacheKey(sha, slug', path, params, body);
    VendorPatternIsExact(sha, slug, slug', path, params, body);
    var pattern := VendorPattern(slug);
    assert Alive(left, key, now) && GlobMatch(pattern, key) ==> key in Matching(left, pattern, now);
  }

  /** `flush_all` empties the response cache and touches no other key. */
  lemma AllFlushed(store: Store, left: Store, start: Instant, now: Instant, deleted: nat, key: string)
    requires Flushed(store, left, "cache:*", start, now, deleted)
    ensures if "cache:" <= key then !Alive(left, key, now)
            else (key in store <==> key in left) && (key in store ==> left[key] == store[key])
  {
    assert "cache:*" == "cache:" + "*";
    LiteralStar("cache:", key);
    assert Alive(left, key, now) && GlobMatch("cache:*", key) ==> key in Matching(left, "cache:*", now);
  }
}
