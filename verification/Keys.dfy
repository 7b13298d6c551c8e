/** The cache and dedup keys of `src/gateway/cache/response_cache.py` and `dedup.py`. SHA-256 is a
    parameter: any injective function from bytes to colon-free text. Bytes are compared through
    their Latin-1 reading, one character for each byte. */
module Keys {
  import opened Wrappers
  import opened Json
  import opened Wire

  /** A request body as the key functions accept it. */
  datatype Body = Absent | Raw(bytes: seq<Byte>) | Plain(text: string)

  // ----------------------------------------------------------------------------------------
  // UTF-8
  // ----------------------------------------------------------------------------------------

  function Utf8Char(c: char): (b: seq<Byte>)
    ensures b != []
  {
    var n := c as int;
    if n < 0x80 then [n]
    else if n < 0x800 then [0xC0 + n / 64, 0x80 + n % 64]
    else if n < 0x10000 then [0xE0 + n / 4096, 0x80 + n / 64 % 64, 0x80 + n % 64]
    else [0xF0 + n / 262144, 0x80 + n / 4096 % 64, 0x80 + n / 64 % 64, 0x80 + n % 64]
  }

  /** `str.encode`. */
  function Utf8(s: string): seq<Byte> {
    if s == "" then [] else Utf8Char(s[0]) + Utf8(s[1..])
  }

  function Latin1(b: seq<Byte>): (s: string)
    ensures |s| == |b| && forall i :: 0 <= i < |b| ==> s[i] as int == b[i]
  {
    seq(|b|, i requires 0 <= i < |b| => b[i] as char)
  }

  lemma Latin1Injective(a: seq<Byte>, b: seq<Byte>)
    requires Latin1(a) == Latin1(b)
    ensures a == b
  {
    assert forall i :: 0 <= i < |a| ==> a[i] == Latin1(a)[i] as int;
    assert forall i :: 0 <= i < |b| ==> b[i] == Latin1(b)[i] as int;
  }

  lemma {:induction false} Utf8Append(a: string, b: string)
    ensures Utf8(a + b) == Utf8(a) + Utf8(b)
  {
    if a == "" {
      assert a + b == b;
    } else {
      assert (a + b)[1..] == a[1..] + b;
      Utf8Append(a[1..], b);
    }
  }

  predicate Ascii(s: string) {
    forall i :: 0 <= i < |s| ==> s[i] as int < 128
  }

  lemma {:induction false} Utf8OfAscii(s: string)
    requires Ascii(s)
    ensures Latin1(Utf8(s)) == s
  {
    if s != "" {
      Utf8OfAscii(s[1..]);
      assert Latin1(Utf8(s)) == [s[0]] + Latin1(Utf8(s[1..]));
    }
  }

  /** The character that a UTF-8 sequence of the given length starts with. */
  function CharValue(b: seq<Byte>): int {
    match |b|
    case 1 => b[0] as int
    case 2 => (b[0] as int - 0xC0) * 64 + (b[1] as int - 0x80)
    case 3 => ((b[0] as int - 0xE0) * 64 + (b[1] as int - 0x80)) * 64 + (b[2] as int - 0x80)
    case 4 => (((b[0] as int - 0xF0) * 64 + (b[1] as int - 0x80)) * 64 + (b[2] as int - 0x80)) * 64 + (b[3] as int - 0x80)
    case _ => -1
  }

  /** Section 3 of RFC 3629: the length of the sequence follows from the code point, the lead byte
      tells it, and every further byte carries six bits. */
  lemma Utf8CharValue(c: char)
    ensures CharValue(Utf8Char(c)) == c as int
    ensures var n, k := c as int, |Utf8Char(c)|;
            k == if n < 0x80 then 1 else if n < 0x800 then 2 else if n < 0x10000 then 3 else 4
    ensures var lead, k := Utf8Char(c)[0], |Utf8Char(c)|;
            k == if lead < 0x80 then 1 else if lead < 0xE0 then 2 else if lead < 0xF0 then 3 else 4
    ensures forall i :: 0 < i < |Utf8Char(c)| ==> 0x80 <= Utf8Char(c)[i] < 0xC0
  {
    var n := c as int;
    assert n / 64 / 64 == n / 4096 && n / 4096 / 64 == n / 262144;
  }

  /** UTF-8 is prefix-free character by character. */
  lemma Utf8CharUnique(c: char, restC: seq<Byte>, d: char, restD: seq<Byte>)
    requires Utf8Char(c) + restC == Utf8Char(d) + restD
    ensures c == d && restC == restD
  {
    var s, t := Utf8Char(c) + restC, Utf8Char(d) + restD;
    assert s[0] == Utf8Char(c)[0] && t[0] == Utf8Char(d)[0];
    Utf8CharValue(c);
    Utf8CharValue(d);
    var k := |Utf8Char(c)|;
    assert Utf8Char(c) == s[..k] == Utf8Char(d);
    assert restC == s[k..] == restD;
  }

  lemma {:induction false} Utf8Injective(a: string, b: string)
    requires Utf8(a) == Utf8(b)
    ensures a == b
  {
    if a != "" && b != "" {
      Utf8CharUnique(a[0], Utf8(a[1..]), b[0], Utf8(b[1..]));
      Utf8Injective(a[1..], b[1..]);
      assert a == [a[0]] + a[1..] && b == [b[0]] + b[1..];
    }
  }

  lemma {:induction false} Utf8NoColon(s: string)
    requires ':' !in s
    ensures ':' !in Latin1(Utf8(s))
  {
    if s != "" {
      Utf8NoColon(s[1..]);
      assert Latin1(Utf8(s)) == Latin1(Utf8Char(s[0])) + Latin1(Utf8(s[1..]));
    }
  }

  // ----------------------------------------------------------------------------------------
  // sorted(params.items())
  // ----------------------------------------------------------------------------------------

  /** Lexicographic order by code point, as Python compares strings. */
  predicate TextLeq(a: string, b: string) {
    a == "" || (b != "" && (a[0] < b[0] || (a[0] == b[0] && TextLeq(a[1..], b[1..]))))
  }

  lemma {:induction false} TextLeqOrder(a: string, b: string, c: string)
    ensures TextLeq(a, b) || TextLeq(b, a)
    ensures TextLeq(a, b) && TextLeq(b, a) ==> a == b
    ensures TextLeq(a, b) && TextLeq(b, c) ==> TextLeq(a, c)
  {
    if a != "" && b != "" {
      TextLeqOrder(a[1..], b[1..], if c == "" then "" else c[1..]);
      assert a == [a[0]] + a[1..] && b == [b[0]] + b[1..];
    }
  }

  predicate PairLeq(p: (string, string), q: (string, string)) {
    if p.0 == q.0 then TextLeq(p.1, q.1) else TextLeq(p.0, q.0)
  }

  lemma PairLeqOrder(p: (string, string), q: (string, string), r: (string, string))
    ensures PairLeq(p, q) || PairLeq(q, p)
    ensures PairLeq(p, q) && PairLeq(q, p) ==> p == q
    ensures PairLeq(p, q) && PairLeq(q, r) ==> PairLeq(p, r)
  {
    TextLeqOrder(p.0, q.0, r.0);
    TextLeqOrder(q.0, p.0, r.0);
    TextLeqOrder(p.0, r.0, q.0);
    TextLeqOrder(r.0, p.0, q.0);
    TextLeqOrder(p.1, q.1, r.1);
    TextLeqOrder(q.0, r.0, p.0);
  }

  function Insert(p: (string, string), h: Pairs): Pairs {
    if h == [] || PairLeq(p, h[0]) then [p] + h else [h[0]] + Insert(p, h[1..])
  }

  function Sort(h: Pairs): Pairs {
    if h == [] then [] else Insert(h[0], Sort(h[1..]))
  }

  predicate Sorted(h: Pairs) {
    forall i, j :: 0 <= i < j < |h| ==> PairLeq(h[i], h[j])
  }

  lemma InsertFirst(p: (string, string), h: Pairs)
    requires Sorted(h) && (h == [] || PairLeq(p, h[0]))
    ensures Sorted([p] + h)
  {
    forall j | 0 <= j < |h|
      ensures PairLeq(p, h[j])
    {
      PairLeqOrder(p, h[0], h[j]);
    }
  }

  lemma {:induction false} InsertSorts(p: (string, string), h: Pairs)
    requires Sorted(h)
    ensures Sorted(Insert(p, h)) && multiset(Insert(p, h)) == multiset(h) + multiset{p}
  {
    if h == [] || PairLeq(p, h[0]) {
      InsertFirst(p, h);
    } else {
      InsertSorts(p, h[1..]);
      var rest := Insert(p, h[1..]);
      assert h == [h[0]] + h[1..];
      if rest != [] {
        assert rest[0] in multiset(rest);
        assert rest[0] == p || rest[0] in h[1..];
        PairLeqOrder(p, h[0], p);
      }
      InsertFirst(h[0], rest);
    }
  }

  lemma {:induction false} SortSorts(h: Pairs)
    ensures Sorted(Sort(h)) && multiset(Sort(h)) == multiset(h)
  {
    if h != [] {
      SortSorts(h[1..]);
      InsertSorts(h[0], Sort(h[1..]));
      assert h == [h[0]] + h[1..];
    }
  }

  lemma SortedFirst(a: Pairs, b: Pairs)
    requires Sorted(a) && Sorted(b) && multiset(a) == multiset(b) && a != []
    ensures b != [] && a[0] == b[0]
  {
    assert a[0] in multiset(b);
    assert a[0] in b;
    assert b[0] in multiset(a);
    assert b[0] in a;
    var i :| 0 <= i < |b| && b[i] == a[0];
    var j :| 0 <= j < |a| && a[j] == b[0];
    PairLeqOrder(a[0], b[0], a[0]);
    PairLeqOrder(a[0], a[0], a[0]);
  }

  lemma {:induction false} SortedUnique(a: Pairs, b: Pairs)
    requires Sorted(a) && Sorted(b) && multiset(a) == multiset(b)
    ensures a == b
  {
    if a != [] {
      SortedFirst(a, b);
      assert a == [a[0]] + a[1..] && b == [b[0]] + b[1..];
      assert multiset(a[1..]) == multiset(a) - multiset{a[0]};
      assert multiset(b[1..]) == multiset(b) - multiset{b[0]};
      SortedUnique(a[1..], b[1..]);
    } else {
      assert |multiset(b)| == 0;
    }
  }

  /** Sorting forgets the order of a dict's pairs and nothing else. */
  lemma SortForgetsOrder(a: Pairs, b: Pairs)
    ensures Sort(a) == Sort(b) <==> multiset(a) == multiset(b)
  {
    SortSorts(a);
    SortSorts(b);
    if multiset(a) == multiset(b) {
      SortedUnique(Sort(a), Sort(b));
    }
  }

  // ----------------------------------------------------------------------------------------
  // Fingerprinted text
  // ----------------------------------------------------------------------------------------

  function BodyBytes(body: Body): seq<Byte> {
    match body
    case Absent => []
    case Raw(bytes) => bytes
    case Plain(text) => Utf8(text)
  }

  function ParamsOf(params: Option<Pairs>): Pairs {
    match params
    case None => []
    case Some(h) => h
  }

  /** `json.dumps(sorted((params or {}).items()), separators=(",", ":"))`. */
  function ParamsText(params: Option<Pairs>): string {
    "[" + PairsText(ARRAY, Sort(ParamsOf(params)))
  }

  /** `str.strip("/")`. */
  function Strip(path: string): string {
    if path == "" then ""
    else if path[0] == '/' then Strip(path[1..])
    else if path[|path| - 1] == '/' then Strip(path[..|path| - 1])
    else path
  }

  predicate AllSlashes(s: string) {
    forall i :: 0 <= i < |s| ==> s[i] == '/'
  }

  predicate Wraps(path: string, core: string, front: string, back: string) {
    AllSlashes(front) && AllSlashes(back) && path == front + core + back
  }

  /** `core` is what is left of a path without the slashes at its ends. */
  ghost predicate Trimmed(path: string, core: string) {
    && (core == "" || (core[0] != '/' && core[|core| - 1] != '/'))
    && exists front, back :: Wraps(path, core, front, back)
  }

  lemma {:induction false} StripTrims(path: string)
    ensures Trimmed(path, Strip(path))
  {
    if path != "" && path[0] == '/' {
      StripTrims(path[1..]);
      assert path == "/" + path[1..] + "";
      TrimsMore(path[1..], Strip(path), "/", "", path);
    } else if path != "" && path[|path| - 1] == '/' {
      var n := |path| - 1;
      StripTrims(path[..n]);
      assert path == "" + path[..n] + "/";
      TrimsMore(path[..n], Strip(path), "", "/", path);
    } else {
      NothingToTrim(path);
    }
  }

  lemma NothingToTrim(path: string)
    requires path == "" || (path[0] != '/' && path[|path| - 1] != '/')
    ensures Trimmed(path, path)
  {
    assert path == "" + path + "";
    assert Wraps(path, path, "", "");
  }

  lemma TrimsMore(inner: string, core: string, left: string, right: string, path: string)
    requires Trimmed(inner, core) && AllSlashes(left) && AllSlashes(right) && path == left + inner + right
    ensures Trimmed(path, core)
  {
    var front, back :| Wraps(inner, core, front, back);
    WrapsMore(path, core, front, back, left, right);
  }

  lemma WrapsMore(path: string, core: string, front: string, back: string, left: string, right: string)
    requires AllSlashes(left) && AllSlashes(right) && AllSlashes(front) && AllSlashes(back)
    requires path == left + (front + core + back) + right
    ensures Wraps(path, core, left + front, back + right)
  {
    assert path == (left + front) + core + (back + right);
  }

  /** Only a path of nothing but slashes is trimmed to nothing. */
  lemma SlashesOnly(path: string, core: string, front: string, back: string)
    requires Wraps(path, core, front, back) && (core == "" || core[0] != '/')
    ensures AllSlashes(path) <==> core == ""
  {
    if core != "" {
      assert path[|front|] == core[0];
    }
  }

  lemma TrimmedOnce(path: string, core: string, core': string)
    requires Trimmed(path, core) && Trimmed(path, core')
    ensures core == core'
  {
    var f, b :| Wraps(path, core, f, b);
    var f', b' :| Wraps(path, core', f', b');
    SlashesOnly(path, core, f, b);
    SlashesOnly(path, core', f', b');
    if core != "" {
      assert path[|f|] == core[0] && path[|f'|] == core'[0];
      assert |f| == |f'|;
      var n, n' := |f| + |core|, |f'| + |core'|;
      assert path[n - 1] == core[|core| - 1] && path[n' - 1] == core'[|core'| - 1];
      assert forall i :: n <= i < |path| ==> path[i] == b[i - n];
      assert forall i :: n' <= i < |path| ==> path[i] == b'[i - n'];
      assert n == n';
      assert core == path[|f|..n] && core' == path[|f'|..n'];
    }
  }

  lemma {:induction false} EscapeIsAscii(s: string)
    ensures Ascii(Escape(s))
  {
    if s != "" {
      EscapeIsAscii(s[1..]);
    }
  }

  lemma AsciiAppend(a: string, b: string)
    requires Ascii(a) && Ascii(b)
    ensures Ascii(a + b)
  {
  }

  lemma PairTextIsAscii(p: (string, string))
    ensures Ascii(PairText(ARRAY, p))
  {
    EscapeIsAscii(p.0);
    EscapeIsAscii(p.1);
    AsciiAppend(Quote(p.1), "]");
    AsciiAppend(",", Quote(p.1) + "]");
    AsciiAppend(Quote(p.0), "," + (Quote(p.1) + "]"));
    AsciiAppend("[", Quote(p.0) + ("," + (Quote(p.1) + "]")));
  }

  lemma {:induction false} PairsTextIsAscii(h: Pairs)
    ensures Ascii(PairsText(ARRAY, h))
  {
    if h != [] {
      PairTextIsAscii(h[0]);
      PairsTextIsAscii(h[1..]);
      AsciiAppend(",", PairsText(ARRAY, h[1..]));
      AsciiAppend(PairText(ARRAY, h[0]), if |h| == 1 then "]" else "," + PairsText(ARRAY, h[1..]));
    }
  }

  lemma Latin1Append(a: seq<Byte>, b: seq<Byte>)
    ensures Latin1(a + b) == Latin1(a) + Latin1(b)
  {
  }

  /** The parameter text is prefix-free: followed by any body it determines both. */
  lemma ParamsAndBody(p: Option<Pairs>, b: seq<Byte>, q: Option<Pairs>, c: seq<Byte>)
    requires Utf8(ParamsText(p)) + b == Utf8(ParamsText(q)) + c
    ensures multiset(ParamsOf(p)) == multiset(ParamsOf(q)) && b == c
  {
    ParamsFront(p, b);
    ParamsFront(q, c);
    Latin1Injective(b, c);
    SortForgetsOrder(ParamsOf(p), ParamsOf(q));
  }

  lemma TailOf(c: char, x: string, y: string)
    ensures ([c] + x + y)[1..] == x + y
  {
  }

  lemma ParamsFront(p: Option<Pairs>, b: seq<Byte>)
    ensures var s := Latin1(Utf8(ParamsText(p)) + b);
            s != "" && ReadPairs(ARRAY, s[1..]) == Some((Sort(ParamsOf(p)), Latin1(b)))
  {
    var h := Sort(ParamsOf(p));
    PairsTextIsAscii(h);
    Utf8OfAscii(ParamsText(p));
    Latin1Append(Utf8(ParamsText(p)), b);
    assert Latin1(Utf8(ParamsText(p)) + b) == ['['] + PairsText(ARRAY, h) + Latin1(b);
    TailOf('[', PairsText(ARRAY, h), Latin1(b));
    ReadPairsBack(ARRAY, h, Latin1(b));
  }

  lemma SplitAtColon(a: string, restA: string, b: string, restB: string)
    requires ':' !in a && ':' !in b && a + ":" + restA == b + ":" + restB
    ensures a == b && restA == restB
  {
    var s, t := a + ":" + restA, b + ":" + restB;
    assert forall i :: 0 <= i < |a| ==> s[i] == a[i];
    assert forall i :: 0 <= i < |b| ==> t[i] == b[i];
    assert s[|a|] == ':' && t[|b|] == ':';
    assert |a| == |b|;
    assert a == s[..|a|] && b == t[..|b|];
    assert restA == s[|a| + 1..] && restB == t[|b| + 1..];
  }

  lemma SplitAtLastColon(a: string, restA: string, b: string, restB: string)
    requires ':' !in restA && ':' !in restB && a + ":" + restA == b + ":" + restB
    ensures a == b && restA == restB
  {
    var s, t := a + ":" + restA, b + ":" + restB;
    assert forall i :: |a| < i < |s| ==> s[i] == restA[i - |a| - 1];
    assert forall i :: |b| < i < |t| ==> t[i] == restB[i - |b| - 1];
    assert s[|a|] == ':' && t[|b|] == ':';
    assert |a| == |b|;
    assert a == s[..|a|] && b == t[..|b|];
    assert restA == s[|a| + 1..] && restB == t[|b| + 1..];
  }

  // ----------------------------------------------------------------------------------------
  // Keys
  // ----------------------------------------------------------------------------------------

  type Digest = seq<Byte> -> string

  /** What the model uses of SHA-256 and its hexadecimal digest. */
  ghost predicate IsDigest(sha: Digest) {
    && (forall a, b :: sha(a) == sha(b) ==> a == b)
    && (forall a :: ':' !in sha(a))
  }

  function MakeCacheKey(sha: Digest, slug: string, path: string, params: Option<Pairs>, body: Body): string {
    "cache:" + (slug + ":" + (Strip(path) + ":" + sha(Utf8(ParamsText(params)) + BodyBytes(body))))
  }

  /** The bytes under a dedup key's fingerprint. */
  function DedupText(slug: string, path: string, params: Option<Pairs>, body: Body): seq<Byte> {
    Utf8(slug + ":" + Strip(path) + ":") + Utf8(ParamsText(params)) + BodyBytes(body)
  }

  function MakeDedupKey(sha: Digest, slug: string, path: string, params: Option<Pairs>, body: Body): string {
    "dedup:" + sha(DedupText(slug, path, params, body))
  }

  /** The same path but for slashes at its ends. */
  ghost predicate SamePath(path: string, path': string) {
    exists core :: Trimmed(path, core) && Trimmed(path', core)
  }

  /** The same parameters in any order; none at all is the empty dict. */
  ghost predicate SameParams(params: Option<Pairs>, params': Option<Pairs>) {
    var none: multiset<(string, string)> := multiset{};
    (if params.Some? then multiset(params.value) else none) == (if params'.Some? then multiset(params'.value) else none)
  }

  /** The same body; no body is the empty one, and a text is its UTF-8 encoding. */
  predicate SameBody(body: Body, body': Body) {
    match (body, body')
    case (Absent, Absent) => true
    case (Absent, Raw(bytes)) => bytes == []
    case (Absent, Plain(text)) => text == ""
    case (Raw(bytes), Absent) => bytes == []
    case (Raw(bytes), Raw(bytes')) => bytes == bytes'
    case (Raw(bytes), Plain(text)) => bytes == Utf8(text)
    case (Plain(text), Absent) => text == ""
    case (Plain(text), Raw(bytes)) => bytes == Utf8(text)
    case (Plain(text), Plain(text')) => text == text'
  }

  ghost predicate SameRequest(slug: string, path: string, params: Option<Pairs>, body: Body,
                              slug': string, path': string, params': Option<Pairs>, body': Body) {
    slug == slug' && SamePath(path, path') && SameParams(params, params') && SameBody(body, body')
  }

  lemma SamePathIff(path: string, path': string)
    ensures SamePath(path, path') <==> Strip(path) == Strip(path')
  {
    StripTrims(path);
    StripTrims(path');
    if SamePath(path, path') {
      var core :| Trimmed(path, core) && Trimmed(path', core);
      TrimmedOnce(path, core, Strip(path));
      TrimmedOnce(path', core, Strip(path'));
    }
  }

  lemma SameBodyIff(body: Body, body': Body)
    ensures SameBody(body, body') <==> BodyBytes(body) == BodyBytes(body')
  {
    var text := if body.Plain? then body.text else "";
    var text' := if body'.Plain? then body'.text else "";
    if Utf8(text) == Utf8(text') {
      Utf8Injective(text, text');
    }
  }

  lemma SameParamsIff(params: Option<Pairs>, params': Option<Pairs>)
    ensures SameParams(params, params') <==> multiset(ParamsOf(params)) == multiset(ParamsOf(params'))
  {
  }

  lemma SameRequestIff(slug: string, path: string, params: Option<Pairs>, body: Body,
                       slug': string, path': string, params': Option<Pairs>, body': Body)
    ensures SameRequest(slug, path, params, body, slug', path', params', body') <==>
              && slug == slug' && Strip(path) == Strip(path')
              && multiset(ParamsOf(params)) == multiset(ParamsOf(params')) && BodyBytes(body) == BodyBytes(body')
  {
    SamePathIff(path, path');
    SameParamsIff(params, params');
    SameBodyIff(body, body');
  }

  lemma DropPrefix(p: string, a: string, b: string)
    requires p + a == p + b
    ensures a == b
  {
    assert a == (p + a)[|p|..] && b == (p + b)[|p|..];
  }

  /** For colon-free slugs two cache keys are equal exactly when slug, slash-stripped path,
      parameters in any order, and body are. */
  lemma CacheKeysUnambiguous(sha: Digest, slug: string, path: string, params: Option<Pairs>, body: Body,
                             slug': string, path': string, params': Option<Pairs>, body': Body)
    requires IsDigest(sha) && ':' !in slug && ':' !in slug'
    ensures MakeCacheKey(sha, slug, path, params, body) == MakeCacheKey(sha, slug', path', params', body')
       <==> SameRequest(slug, path, params, body, slug', path', params', body')
  {
    SameRequestIff(slug, path, params, body, slug', path', params', body');
    var text, text' := Utf8(ParamsText(params)) + BodyBytes(body), Utf8(ParamsText(params')) + BodyBytes(body');
    var tail, tail' := Strip(path) + ":" + sha(text), Strip(path') + ":" + sha(text');
    if MakeCacheKey(sha, slug, path, params, body) == MakeCacheKey(sha, slug', path', params', body') {
      DropPrefix("cache:", slug + ":" + tail, slug' + ":" + tail');
      SplitAtColon(slug, tail, slug', tail');
      SplitAtLastColon(Strip(path), sha(text), Strip(path'), sha(text'));
      ParamsAndBody(params, BodyBytes(body), params', BodyBytes(body'));
    }
    if SameRequest(slug, path, params, body, slug', path', params', body') {
      SortForgetsOrder(ParamsOf(params), ParamsOf(params'));
    }
  }

  lemma FrontPiece(s: string, rest: seq<Byte>)
    ensures Latin1(Utf8(s + ":") + rest) == Latin1(Utf8(s)) + ":" + Latin1(rest)
  {
    Utf8Append(s, ":");
    assert Utf8(":") == [58] && Latin1([58]) == ":";
    Latin1Append(Utf8(s) + [58], rest);
    Latin1Append(Utf8(s), [58]);
  }

  lemma Assoc<T>(a: seq<T>, b: seq<T>, c: seq<T>)
    ensures a + b + c == a + (b + c)
  {
  }

  lemma DedupTextSplit(slug: string, path: string, params: Option<Pairs>, body: Body)
    ensures DedupText(slug, path, params, body)
         == Utf8(slug + ":") + (Utf8(Strip(path) + ":") + (Utf8(ParamsText(params)) + BodyBytes(body)))
  {
    var front, tail := Utf8(slug + ":"), Utf8(Strip(path) + ":");
    Utf8Append(slug + ":", Strip(path) + ":");
    assert slug + ":" + Strip(path) + ":" == (slug + ":") + (Strip(path) + ":");
    Assoc(front + tail, Utf8(ParamsText(params)), BodyBytes(body));
    Assoc(front, tail, Utf8(ParamsText(params)) + BodyBytes(body));
  }

  lemma DedupTextFront(slug: string, path: string, params: Option<Pairs>, body: Body)
    ensures Latin1(DedupText(slug, path, params, body))
         == Latin1(Utf8(slug)) + ":" + (Latin1(Utf8(Strip(path))) + ":"
              + Latin1(Utf8(ParamsText(params)) + BodyBytes(body)))
  {
    var rest := Utf8(ParamsText(params)) + BodyBytes(body);
    DedupTextSplit(slug, path, params, body);
    FrontPiece(slug, Utf8(Strip(path) + ":") + rest);
    FrontPiece(Strip(path), rest);
  }

  /** The same for dedup keys when the stripped paths are colon-free too. */
  lemma DedupKeysUnambiguous(sha: Digest, slug: string, path: string, params: Option<Pairs>, body: Body,
                             slug': string, path': string, params': Option<Pairs>, body': Body)
    requires IsDigest(sha) && ':' !in slug && ':' !in slug' && ':' !in Strip(path) && ':' !in Strip(path')
    ensures MakeDedupKey(sha, slug, path, params, body) == MakeDedupKey(sha, slug', path', params', body')
       <==> SameRequest(slug, path, params, body, slug', path', params', body')
  {
    SameRequestIff(slug, path, params, body, slug', path', params', body');
    var text, text' := Utf8(ParamsText(params)) + BodyBytes(body), Utf8(ParamsText(params')) + BodyBytes(body');
    var tail := Latin1(Utf8(Strip(path))) + ":" + Latin1(text);
    var tail' := Latin1(Utf8(Strip(path'))) + ":" + Latin1(text');
    if MakeDedupKey(sha, slug, path, params, body) == MakeDedupKey(sha, slug', path', params', body') {
      DropPrefix("dedup:", sha(DedupText(slug, path, params, body)), sha(DedupText(slug', path', params', body')));
      DedupTextFront(slug, path, params, body);
      DedupTextFront(slug', path', params', body');
      Utf8NoColon(slug);
      Utf8NoColon(slug');
      Utf8NoColon(Strip(path));
      Utf8NoColon(Strip(path'));
      SplitAtColon(Latin1(Utf8(slug)), tail, Latin1(Utf8(slug')), tail');
      SplitAtColon(Latin1(Utf8(Strip(path))), Latin1(text), Latin1(Utf8(Strip(path'))), Latin1(text'));
      Latin1Injective(Utf8(slug), Utf8(slug'));
      Utf8Injective(slug, slug');
      Latin1Injective(Utf8(Strip(path)), Utf8(Strip(path')));
      Utf8Injective(Strip(path), Strip(path'));
      Latin1Injective(text, text');
      ParamsAndBody(params, BodyBytes(body), params', BodyBytes(body'));
    }
    if SameRequest(slug, path, params, body, slug', path', params', body') {
      SortForgetsOrder(ParamsOf(params), ParamsOf(params'));
    }
  }

  /** The hypothesis on the path is needed: with a colon in one path, a bodiless request and one
      with a body share a dedup key under every digest. */
  lemma DedupKeysCollideOnColonPaths(sha: Digest, slug: string)
    ensures MakeDedupKey(sha, slug, "x:[]", None, Absent) == MakeDedupKey(sha, slug, "x", None, Plain(":[]"))
    ensures !SameRequest(slug, "x:[]", None, Absent, slug, "x", None, Plain(":[]"))
  {
    SameRequestIff(slug, "x:[]", None, Absent, slug, "x", None, Plain(":[]"));
    var left, right := "x:[]", "x";
    assert Strip(left) == left && Strip(right) == right && ParamsText(None) == "[]";
    Utf8Append(slug + ":" + left + ":", "[]");
    Utf8Append(slug + ":" + right + ":", "[]");
    Utf8Append(slug + ":" + right + ":" + "[]", ":[]");
    assert slug + ":" + left + ":" + "[]" == slug + ":" + right + ":" + "[]" + ":[]";
    assert DedupText(slug, left, None, Absent) == Utf8(slug + ":" + left + ":" + "[]");
    assert DedupText(slug, right, None, Plain(":[]")) == Utf8(slug + ":" + right + ":" + "[]" + ":[]");
  }

  /** The key of one request's cache entry, the lock of another and the result of a third, which is
      stored under its lock's key and `:result`, never coincide. */
  lemma KeySpacesDisjoint(sha: Digest, slug: string, path: string, params: Option<Pairs>, body: Body,
                          slug': string, path': string, params': Option<Pairs>, body': Body)
    requires IsDigest(sha)
    ensures var cache, lock := MakeCacheKey(sha, slug, path, params, body), MakeDedupKey(sha, slug', path', params', body');
            cache != lock && cache != lock + ":result"
    ensures MakeDedupKey(sha, slug, path, params, body) != MakeDedupKey(sha, slug', path', params', body') + ":result"
  {
    var text, text' := DedupText(slug, path, params, body), DedupText(slug', path', params', body');
    assert MakeCacheKey(sha, slug, path, params, body)[0] == 'c';
    assert ("dedup:" + sha(text))[0] == 'd' && ("dedup:" + sha(text) + ":result")[0] == 'd';
    var a, b := "dedup:" + sha(text), "dedup:" + sha(text') + ":result";
    assert b[6 + |sha(text')|] == ':';
    assert forall i :: 6 <= i < |a| ==> a[i] == sha(text)[i - 6];
  }

  /** The fingerprinted text of two parameters: an array of arrays without blanks, sorted. */
  lemma ParamsExample(a: (string, string), b: (string, string))
    requires a == ("a", "1") && b == ("b", "2")
    ensures ParamsText(Some([b, a])) == "[" + "[\"a\",\"1\"]" + "," + "[\"b\",\"2\"]" + "]"
  {
    SortsTwo(a, b);
    assert PairText(ARRAY, a) == "[\"a\",\"1\"]" by { PairOfLetters('a', '1'); }
    assert PairText(ARRAY, b) == "[\"b\",\"2\"]" by { PairOfLetters('b', '2'); }
    TwoPairs(a, b);
  }

  lemma SortsTwo(p: (string, string), q: (string, string))
    requires PairLeq(p, q) && !PairLeq(q, p)
    ensures Sort([q, p]) == [p, q]
  {
    assert [q, p][1..] == [p] && [p][1..] == [];
    assert Sort([p]) == [p] by {
      assert Sort([]) == [];
    }
    assert Insert(q, [p]) == [p] + Insert(q, []);
  }

  lemma TwoPairs(p: (string, string), q: (string, string))
    ensures "[" + PairsText(ARRAY, [p, q]) == "[" + PairText(ARRAY, p) + "," + PairText(ARRAY, q) + "]"
  {
    assert [p, q][1..] == [q];
    Regroup(PairText(ARRAY, p), PairText(ARRAY, q));
  }

  lemma Regroup(x: string, y: string)
    ensures "[" + (x + ("," + (y + "]"))) == "[" + x + "," + y + "]"
  {
  }

  lemma PairOfLetters(c: char, d: char)
    requires EscapeChar(c) == [c] && EscapeChar(d) == [d]
    ensures PairText(ARRAY, ([c], [d])) == ['[', '"', c, '"', ',', '"', d, '"', ']']
  {
    assert [c][1..] == [] && [d][1..] == [];
    assert Escape([c]) == [c] && Escape([d]) == [d];
    assert Quote([c]) == ['"', c, '"'] && Quote([d]) == ['"', d, '"'];
  }
}
