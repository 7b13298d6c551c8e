/** The wire format of a stored response (`_serialise` and `_deserialise` in
    `src/gateway/cache/response_cache.py`, and their twins in `dedup.py`). A header dict is the
    sequence of its pairs in insertion order. */
module Wire {
  import opened Wrappers
  import opened Text
  import opened Json

  type Byte = b: int | 0 <= b < 256
  type Headers = Pairs

  /** A UTC `datetime`. */
  datatype Stamp = Stamp(year: nat, month: nat, day: nat, hour: nat, minute: nat, second: nat, micro: nat)

  datatype CachedResponse = CachedResponse(statusCode: nat, headers: Headers, body: seq<Byte>, cachedAt: Stamp)

  predicate ValidStamp(t: Stamp) {
    && 1 <= t.year < 10000 && 1 <= t.month <= 12 && 1 <= t.day <= 31
    && t.hour < 24 && t.minute < 60 && t.second < 60 && t.micro < 1000000
  }

  // ----------------------------------------------------------------------------------------
  // Dicts
  // ----------------------------------------------------------------------------------------

  function Names(h: Headers): set<string> {
    set i | 0 <= i < |h| :: h[i].0
  }

  predicate DistinctKeys(h: Headers) {
    forall i, j :: 0 <= i < j < |h| ==> h[i].0 != h[j].0
  }

  /** `h[key] = value`: replaces in place, or appends a new key. */
  function DictSet(h: Headers, key: string, value: string): Headers {
    if h == [] then [(key, value)]
    else if h[0].0 == key then [(key, value)] + h[1..]
    else [h[0]] + DictSet(h[1..], key, value)
  }

  lemma {:induction false} DictSetFresh(h: Headers, key: string, value: string)
    requires key !in Names(h)
    ensures DictSet(h, key, value) == h + [(key, value)]
  {
    if h != [] {
      assert h[0].0 in Names(h);
      assert forall i :: 0 <= i < |h[1..]| ==> h[1..][i] == h[i + 1] && h[i + 1].0 in Names(h);
      DictSetFresh(h[1..], key, value);
    }
  }

  lemma {:induction false} DictSetInPlace(h: Headers, i: nat, value: string)
    requires DistinctKeys(h) && i < |h|
    ensures DictSet(h, h[i].0, value) == h[i := (h[i].0, value)]
  {
    if i > 0 {
      DictSetInPlace(h[1..], i - 1, value);
      assert h[i := (h[i].0, value)] == [h[0]] + h[1..][i - 1 := (h[i].0, value)];
    }
  }

  /** A dict built by inserting pairs in order. */
  function FromPairs(pairs: Headers): Headers {
    if pairs == [] then [] else DictSet(FromPairs(pairs[..|pairs| - 1]), pairs[|pairs| - 1].0, pairs[|pairs| - 1].1)
  }

  lemma {:induction false} FromDistinctPairs(pairs: Headers)
    requires DistinctKeys(pairs)
    ensures FromPairs(pairs) == pairs
  {
    if pairs != [] {
      var n := |pairs| - 1;
      FromDistinctPairs(pairs[..n]);
      DictSetFresh(pairs[..n], pairs[n].0, pairs[n].1);
    }
  }

  // ----------------------------------------------------------------------------------------
  // Writing and reading the parts
  // ----------------------------------------------------------------------------------------

  /** `bytes.hex`. */
  function HexBody(body: seq<Byte>): string {
    if body == [] then [] else Hex2(body[0]) + HexBody(body[1..])
  }

  function ReadHexBody(s: string): Option<seq<Byte>> {
    if s == [] then Some([])
    else
      var b :- ReadHex2(s);
      var rest :- ReadHexBody(s[2..]);
      Some([b] + rest)
  }

  lemma {:induction false} HexBodyRoundTrip(body: seq<Byte>)
    ensures ReadHexBody(HexBody(body)) == Some(body)
  {
    if body != [] {
      Hex2RoundTrip(body[0], HexBody(body[1..]));
      assert HexBody(body)[2..] == HexBody(body[1..]);
      HexBodyRoundTrip(body[1..]);
      assert [body[0]] + body[1..] == body;
    }
  }

  /** Reads exactly `width` digits. */
  function ReadPadded(s: string, width: nat): (r: Option<(nat, string)>) {
    if width <= |s| && forall i :: 0 <= i < width ==> IsDigit(s[i])
    then Some((DecimalValue(s[..width]), s[width..])) else None
  }

  lemma ReadPaddedBack(n: nat, width: nat, rest: string)
    requires n < Pow10(width)
    ensures ReadPadded(Padded(n, width) + rest, width) == Some((n, rest))
  {
    var s := Padded(n, width) + rest;
    assert s[..width] == Padded(n, width) && s[width..] == rest;
    PaddedRoundTrip(n, width);
  }

  /** A padded number and the punctuation after it. */
  function ReadField(s: string, width: nat, end: string): Option<(nat, string)> {
    var (n, t) :- ReadPadded(s, width);
    var u :- Expect(end, t);
    Some((n, u))
  }

  lemma ReadFieldBack(n: nat, width: nat, end: string, rest: string)
    requires n < Pow10(width)
    ensures ReadField(Padded(n, width) + (end + rest), width, end) == Some((n, rest))
  {
    ReadPaddedBack(n, width, end + rest);
    ExpectPiece(end, rest);
  }

  /** `datetime.isoformat`; microseconds are left out when they are zero. */
  function Iso(t: Stamp): string {
    Padded(t.year, 4) + ("-" + (Padded(t.month, 2) + ("-" + (Padded(t.day, 2) + ("T" +
      (Padded(t.hour, 2) + (":" + (Padded(t.minute, 2) + (":" + (Padded(t.second, 2) + IsoFraction(t)))))))))))
  }

  function IsoFraction(t: Stamp): string {
    if t.micro == 0 then "+00:00" else "." + (Padded(t.micro, 6) + ("+00:00" + ""))
  }

  function ReadIso(s: string): Option<Stamp> {
    var (year, s1) :- ReadField(s, 4, "-");
    var (month, s2) :- ReadField(s1, 2, "-");
    var (day, s3) :- ReadField(s2, 2, "T");
    var (hour, s4) :- ReadField(s3, 2, ":");
    var (minute, s5) :- ReadField(s4, 2, ":");
    var (second, s6) :- ReadPadded(s5, 2);
    var micro :- ReadFraction(s6);
    Some(Stamp(year, month, day, hour, minute, second, micro))
  }

  function ReadFraction(s: string): Option<nat> {
    if s == "+00:00" then Some(0)
    else
      var t :- Expect(".", s);
      var (micro, u) :- ReadField(t, 6, "+00:00");
      if u == "" then Some(micro) else None
  }

  lemma FractionRoundTrip(t: Stamp)
    requires t.micro < 1000000
    ensures ReadFraction(IsoFraction(t)) == Some(t.micro)
  {
    if t.micro != 0 {
      assert Pow10(6) == 1000000;
      ExpectPiece(".", Padded(t.micro, 6) + ("+00:00" + ""));
      ReadFieldBack(t.micro, 6, "+00:00", "");
    }
  }

  lemma IsoRoundTrip(t: Stamp)
    requires ValidStamp(t)
    ensures ReadIso(Iso(t)) == Some(t)
  {
    assert Pow10(2) == 100 && Pow10(4) == 10000;
    FractionRoundTrip(t);
    var s5 := Padded(t.second, 2) + IsoFraction(t);
    var s4 := Padded(t.minute, 2) + (":" + s5);
    var s3 := Padded(t.hour, 2) + (":" + s4);
    var s2 := Padded(t.day, 2) + ("T" + s3);
    var s1 := Padded(t.month, 2) + ("-" + s2);
    ReadPaddedBack(t.second, 2, IsoFraction(t));
    ReadFieldBack(t.minute, 2, ":", s5);
    ReadFieldBack(t.hour, 2, ":", s4);
    ReadFieldBack(t.day, 2, "T", s3);
    ReadFieldBack(t.month, 2, "-", s2);
    ReadFieldBack(t.year, 4, "-", s1);
  }

  // ----------------------------------------------------------------------------------------
  // The whole object
  // ----------------------------------------------------------------------------------------

  const STATUS := "{\"status_code\": "
  const HEADERS := ", \"headers\": {"
  const BODY := ", \"body\": "
  const CACHED_AT := ", \"cached_at\": "

  function Serialise(r: CachedResponse): string {
    STATUS + (Decimal(r.statusCode) + (HEADERS + (PairsText(OBJECT, r.headers) + (BODY + (Quote(HexBody(r.body))
      + (CACHED_AT + (Quote(Iso(r.cachedAt)) + "}")))))))
  }

  function ReadNumber(s: string): Option<(nat, string)> {
    var k := DigitRun(s);
    if k == 0 then None else Some((DecimalValue(s[..k]), s[k..]))
  }

  /** Reads the object back in the layout `Serialise` writes; any other text is refused. */
  function Deserialise(text: string): Option<CachedResponse> {
    var s1 :- Expect(STATUS, text);
    var (status, s2) :- ReadNumber(s1);
    var s3 :- Expect(HEADERS, s2);
    var (pairs, s4) :- ReadPairs(OBJECT, s3);
    var s5 :- Expect(BODY, s4);
    var (hex, s6) :- Unquote(s5);
    var body :- ReadHexBody(hex);
    var s7 :- Expect(CACHED_AT, s6);
    var (iso, s8) :- Unquote(s7);
    var stamp :- ReadIso(iso);
    if s8 == "}" then Some(CachedResponse(status, FromPairs(pairs), body, stamp)) else None
  }

  lemma ReadNumberBack(n: nat, rest: string)
    requires rest != [] && !IsDigit(rest[0])
    ensures ReadNumber(Decimal(n) + rest) == Some((n, rest))
  {
    DigitRunStops(Decimal(n), rest);
    var s, k := Decimal(n) + rest, |Decimal(n)|;
    assert s[..k] == Decimal(n) && s[k..] == rest;
    DecimalRoundTrip(n);
  }

  predicate WellFormed(r: CachedResponse) {
    DistinctKeys(r.headers) && ValidStamp(r.cachedAt)
  }

  /** Storing a response and reading it back gives the same status, headers, body and time. */
  lemma RoundTrip(r: CachedResponse)
    requires WellFormed(r)
    ensures Deserialise(Serialise(r)) == Some(r)
  {
    var s8 := "}";
    var s7 := Quote(Iso(r.cachedAt)) + s8;
    var s6 := CACHED_AT + s7;
    var s5 := Quote(HexBody(r.body)) + s6;
    var s4 := BODY + s5;
    var s3 := PairsText(OBJECT, r.headers) + s4;
    var s2 := HEADERS + s3;
    var s1 := Decimal(r.statusCode) + s2;
    ExpectPiece(STATUS, s1);
    ReadNumberBack(r.statusCode, s2);
    ExpectPiece(HEADERS, s3);
    ReadPairsBack(OBJECT, r.headers, s4);
    ExpectPiece(BODY, s5);
    UnquoteQuoted(HexBody(r.body), s6);
    HexBodyRoundTrip(r.body);
    ExpectPiece(CACHED_AT, s7);
    UnquoteQuoted(Iso(r.cachedAt), s8);
    IsoRoundTrip(r.cachedAt);
    FromDistinctPairs(r.headers);
  }

  // ----------------------------------------------------------------------------------------
  // The format, spelled out
  // ----------------------------------------------------------------------------------------

  /** Printable ASCII that needs no escape. */
  predicate Plain(s: string) {
    forall i :: 0 <= i < |s| ==> ' ' <= s[i] <= '~' && s[i] != '"' && s[i] != '\\'
  }

  lemma {:induction false} PlainText(s: string)
    requires Plain(s)
    ensures Escape(s) == s
  {
    if s != "" {
      PlainText(s[1..]);
      assert EscapeChar(s[0]) == [s[0]];
    }
  }

  lemma Two(n: nat)
    requires n < 100
    ensures Padded(n, 2) == [DigitChar(n / 10), DigitChar(n % 10)]
  {
    assert Padded(n / 10, 1) == [] + [DigitChar(n / 10 % 10)];
  }

  lemma Grow(n: nat, width: nat)
    requires 0 < width
    ensures Padded(n, width) == Padded(n / 10, width - 1) + [DigitChar(n % 10)]
  {
  }

  lemma DigitsExample()
    ensures Padded(1, 2) == "01" && Padded(2, 2) == "02" && Padded(3, 2) == "03" && Padded(4, 2) == "04" && Padded(5, 2) == "05"
    ensures Padded(2024, 4) == "2024" && Padded(6, 6) == "000006" && Decimal(200) == "200"
  {
    Two(1);
    Two(2);
    Two(3);
    Two(4);
    Two(5);
    Two(20);
    Grow(202, 3);
    Grow(2024, 4);
    Two(0);
    Grow(0, 3);
    Grow(0, 4);
    Grow(0, 5);
    Grow(6, 6);
    assert Decimal(20) == "20";
  }

  lemma IsoExample(t: Stamp)
    requires t == Stamp(2024, 1, 2, 3, 4, 5, 6)
    ensures Iso(t) == "2024-01-02T" + "03:04:05.000006+00:00"
  {
    DigitsExample();
    assert IsoFraction(t) == ".000006+00:00";
    JoinIso("2024", "01", "02", "03", "04", "05", ".000006+00:00");
  }

  lemma JoinIso(year: string, month: string, day: string, hour: string, minute: string, second: string, fraction: string)
    ensures year + ("-" + (month + ("-" + (day + ("T" + (hour + (":" + (minute + (":" + (second + fraction))))))))))
         == (year + "-" + month + "-" + day + "T") + (hour + ":" + minute + ":" + second + fraction)
  {
  }

  lemma HexExample()
    ensures HexBody([0x7b, 0x00, 0xff]) == "7b00ff"
  {
    assert [0x7b, 0x00, 0xff][1..] == [0x00, 0xff] && [0x00, 0xff][1..] == [0xff] && [0xff][1..] == [];
    assert Hex2(0x7b) == "7b" && Hex2(0x00) == "00" && Hex2(0xff) == "ff";
  }

  /** One stored response in full, as `json.dumps` lays it out. */
  lemma SerialiseExample(r: CachedResponse)
    requires r.statusCode == 200 && r.headers == [("etag", "x")] && r.body == [0x7b, 0x00, 0xff]
    requires r.cachedAt == Stamp(2024, 1, 2, 3, 4, 5, 6)
    ensures Serialise(r) == "{\"status_code\": " + ("200" + (", \"headers\": {" + ("\"etag\": \"x\"}"
              + (", \"body\": " + (("\"" + "7b00ff" + "\"")
              + (", \"cached_at\": " + (("\"" + ("2024-01-02T" + "03:04:05.000006+00:00") + "\"") + "}")))))))
  {
    assert Decimal(r.statusCode) == "200" by { DigitsExample(); }
    assert PairsText(OBJECT, r.headers) == "\"etag\": \"x\"}" by { HeadersExample(r.headers); }
    assert Quote(HexBody(r.body)) == "\"" + "7b00ff" + "\"" by {
      HexExample();
      PlainQuote("7b00ff");
    }
    assert Quote(Iso(r.cachedAt)) == "\"" + ("2024-01-02T" + "03:04:05.000006+00:00") + "\"" by {
      IsoExample(r.cachedAt);
      IsoIsPlain(r.cachedAt);
      PlainQuote(Iso(r.cachedAt));
    }
  }

  lemma PlainPiece(digits: string, end: char, rest: string)
    requires Plain(digits) && Plain([end]) && Plain(rest)
    ensures Plain(digits + ([end] + rest))
  {
  }

  lemma IsoIsPlain(t: Stamp)
    ensures Plain(Iso(t))
  {
    var s5 := Padded(t.second, 2) + IsoFraction(t);
    var s4 := Padded(t.minute, 2) + (":" + s5);
    var s3 := Padded(t.hour, 2) + (":" + s4);
    var s2 := Padded(t.day, 2) + ("T" + s3);
    var s1 := Padded(t.month, 2) + ("-" + s2);
    PlainPiece(Padded(t.minute, 2), ':', s5);
    PlainPiece(Padded(t.hour, 2), ':', s4);
    PlainPiece(Padded(t.day, 2), 'T', s3);
    PlainPiece(Padded(t.month, 2), '-', s2);
    PlainPiece(Padded(t.year, 4), '-', s1);
  }


  lemma PlainQuote(s: string)
    requires Plain(s)
    ensures Quote(s) == "\"" + s + "\""
  {
    PlainText(s);
  }

  lemma HeadersExample(h: Headers)
    requires h == [("etag", "x")]
    ensures PairsText(OBJECT, h) == "\"etag\": \"x\"}"
  {
    PlainText("etag");
    PlainText("x");
    assert Quote("etag") == "\"etag\"" && Quote("x") == "\"x\"";
  }
}
