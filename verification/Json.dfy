/** JSON string literals as Python's `json.dumps` writes them with ASCII output, and as
    `json.loads` reads them (section 7 of RFC 8259). */
module Json {
  import opened Wrappers

  function HexDigit(d: int): (c: char)
    requires 0 <= d < 16
    ensures HexValue(c) == Some(d)
    ensures '0' <= c <= '9' || 'a' <= c <= 'f'
  {
    if d < 10 then ('0' as int + d) as char else ('a' as int + d - 10) as char
  }

  function HexValue(c: char): (d: Option<int>)
    ensures d.Some? ==> 0 <= d.value < 16
  {
    if '0' <= c <= '9' then Some(c as int - '0' as int)
    else if 'a' <= c <= 'f' then Some(c as int - 'a' as int + 10)
    else if 'A' <= c <= 'F' then Some(c as int - 'A' as int + 10)
    else None
  }

  /** Two lower-case hex digits. */
  function Hex2(n: int): (s: string)
    requires 0 <= n < 256
    ensures |s| == 2
  {
    [HexDigit(n / 16), HexDigit(n % 16)]
  }

  function ReadHex2(s: string): (r: Option<int>)
    ensures r.Some? ==> 0 <= r.value < 256 && 2 <= |s|
  {
    if |s| < 2 then None
    else
      var hi :- HexValue(s[0]);
      var lo :- HexValue(s[1]);
      Some(16 * hi + lo)
  }

  function Hex4(n: int): (s: string)
    requires 0 <= n < 0x10000
    ensures |s| == 4
  {
    Hex2(n / 256) + Hex2(n % 256)
  }

  function ReadHex4(s: string): (r: Option<int>)
    ensures r.Some? ==> 0 <= r.value < 0x10000 && 4 <= |s|
  {
    if |s| < 4 then None
    else
      var hi :- ReadHex2(s);
      var lo :- ReadHex2(s[2..]);
      Some(256 * hi + lo)
  }

  lemma Hex2RoundTrip(n: int, rest: string)
    requires 0 <= n < 256
    ensures ReadHex2(Hex2(n) + rest) == Some(n)
  {
  }

  lemma Hex4RoundTrip(n: int, rest: string)
    requires 0 <= n < 0x10000
    ensures ReadHex4(Hex4(n) + rest) == Some(n)
  {
    var s := Hex4(n) + rest;
    assert s == Hex2(n / 256) + (Hex2(n % 256) + rest);
    assert s[2..] == Hex2(n % 256) + rest;
    Hex2RoundTrip(n / 256, Hex2(n % 256) + rest);
    Hex2RoundTrip(n % 256, rest);
  }

  /** One character as it is written between the quotes. */
  function EscapeChar(c: char): (s: string)
    ensures s != []
  {
    var n := c as int;
    if c == '"' then "\\\""
    else if c == '\\' then "\\\\"
    else if n == 8 then "\\b"
    else if n == 9 then "\\t"
    else if n == 10 then "\\n"
    else if n == 12 then "\\f"
    else if n == 13 then "\\r"
    else if 32 <= n < 127 then [c]
    else if n < 0x10000 then "\\u" + Hex4(n)
    else "\\u" + Hex4(0xD800 + (n - 0x10000) / 1024) + "\\u" + Hex4(0xDC00 + (n - 0x10000) % 1024)
  }

  /** The two-character escapes of section 7 of RFC 8259. */
  lemma ShortEscapes()
    ensures EscapeChar('"') == ['\\', '"'] && EscapeChar('\\') == ['\\', '\\'] && EscapeChar('/') == ['/']
    ensures EscapeChar(8 as char) == ['\\', 'b'] && EscapeChar(9 as char) == ['\\', 't'] && EscapeChar(10 as char) == ['\\', 'n']
    ensures EscapeChar(12 as char) == ['\\', 'f'] && EscapeChar(13 as char) == ['\\', 'r']
  {
  }

  lemma HexLetters(d: int)
    requires 0 <= d < 16
    ensures HexDigit(d) == "0123456789abcdef"[d]
  {
  }

  /** Any other character outside printable ASCII is written by its code in four small hexadecimal
      digits, and beyond the first plane by its two surrogates. */
  lemma LongEscape(c: char, n: int)
    requires n == c as int && n !in {8, 9, 10, 12, 13} && (n < 32 || 127 <= n < 0x10000)
    ensures EscapeChar(c) == "\\u" + FourDigits(n)
  {
    FourDigitsAreHex(n);
  }

  lemma SurrogateEscape(c: char, hi: int, lo: int)
    requires 0xD800 <= hi < 0xDC00 && 0xDC00 <= lo < 0xE000 && c as int == 0x10000 + 1024 * (hi - 0xD800) + (lo - 0xDC00)
    ensures EscapeChar(c) == "\\u" + FourDigits(hi) + "\\u" + FourDigits(lo)
  {
    var h, l := SurrogatesOf(c);
    assert h == hi && l == lo;
    FourDigitsAreHex(hi);
    FourDigitsAreHex(lo);
  }

  function FourDigits(n: int): string
    requires 0 <= n < 0x10000
  {
    var digits := "0123456789abcdef";
    [digits[n / 256 / 16], digits[n / 256 % 16], digits[n % 256 / 16], digits[n % 256 % 16]]
  }

  lemma FourDigitsAreHex(n: int)
    requires 0 <= n < 0x10000
    ensures Hex4(n) == FourDigits(n)
  {
    HexLetters(n / 256 / 16);
    HexLetters(n / 256 % 16);
    HexLetters(n % 256 / 16);
    HexLetters(n % 256 % 16);
  }

  function Escape(s: string): string {
    if s == [] then [] else EscapeChar(s[0]) + Escape(s[1..])
  }

  function Quote(s: string): string {
    "\"" + Escape(s) + "\""
  }

  function CharAt(n: int): Option<char> {
    if 0 <= n < 0xD800 || 0xE000 <= n < 0x110000 then Some(n as char) else None
  }

  /** Reads a `\u` escape, joining a surrogate pair, from the text after the backslash and `u`. */
  function ReadUnicode(s: string): (r: Option<(char, string)>)
    ensures r.Some? ==> |r.value.1| < |s|
  {
    var n :- ReadHex4(s);
    if 0xD800 <= n < 0xDC00 && 10 <= |s| && s[4] == '\\' && s[5] == 'u' then
      var m :- ReadHex4(s[6..]);
      if 0xDC00 <= m < 0xE000 then
        var c :- CharAt(0x10000 + 1024 * (n - 0xD800) + (m - 0xDC00));
        Some((c, s[10..]))
      else None
    else
      var c :- CharAt(n);
      Some((c, s[4..]))
  }

  /** Reads one possibly escaped character from the front of a text. */
  function ReadChar(s: string): (r: Option<(char, string)>)
    ensures r.Some? ==> |r.value.1| < |s|
  {
    if s == [] || s[0] as int < 32 then None
    else if s[0] != '\\' then Some((s[0], s[1..]))
    else if |s| < 2 then None
    else
      var rest := s[2..];
      match s[1]
      case '"' => Some(('"', rest))
      case '\\' => Some(('\\', rest))
      case '/' => Some(('/', rest))
      case 'b' => Some((8 as char, rest))
      case 't' => Some((9 as char, rest))
      case 'n' => Some((10 as char, rest))
      case 'f' => Some((12 as char, rest))
      case 'r' => Some((13 as char, rest))
      case 'u' => ReadUnicode(rest)
      case _ => None
  }

  /** Reads up to and past the closing quote. */
  function ScanString(s: string): (r: Option<(string, string)>)
    ensures r.Some? ==> |r.value.1| < |s|
  {
    if s != [] && s[0] == '"' then Some(([], s[1..]))
    else
      var (c, rest) :- ReadChar(s);
      var (tail, after) :- ScanString(rest);
      Some(([c] + tail, after))
  }

  function Unquote(s: string): (r: Option<(string, string)>)
    ensures r.Some? ==> |r.value.1| < |s|
  {
    if s == [] || s[0] != '"' then None else ScanString(s[1..])
  }

  lemma ReadEscapedBmp(c: char, rest: string)
    requires c as int < 0x10000 && EscapeChar(c) == "\\u" + Hex4(c as int)
    ensures ReadChar(EscapeChar(c) + rest) == Some((c, rest))
  {
    var s := EscapeChar(c) + rest;
    assert s[2..] == Hex4(c as int) + rest;
    Hex4RoundTrip(c as int, rest);
    assert s[2..][4..] == rest;
  }

  lemma ReadPair(hi: int, lo: int, rest: string)
    requires 0xD800 <= hi < 0xDC00 && 0xDC00 <= lo < 0xE000
    ensures ReadUnicode(Hex4(hi) + ("\\u" + (Hex4(lo) + rest)))
         == Some(((0x10000 + 1024 * (hi - 0xD800) + (lo - 0xDC00)) as char, rest))
  {
    var tail := Hex4(lo) + rest;
    var u := Hex4(hi) + ("\\u" + tail);
    Hex4RoundTrip(hi, "\\u" + tail);
    Hex4RoundTrip(lo, rest);
    assert u[4] == '\\' && u[5] == 'u';
    assert u[6..] == tail;
    assert u[10..] == rest;
  }

  lemma SurrogatesOf(c: char) returns (hi: int, lo: int)
    requires 0x10000 <= c as int
    ensures 0xD800 <= hi < 0xDC00 && 0xDC00 <= lo < 0xE000
    ensures 0x10000 + 1024 * (hi - 0xD800) + (lo - 0xDC00) == c as int
    ensures EscapeChar(c) == "\\u" + Hex4(hi) + "\\u" + Hex4(lo)
  {
    var n := c as int - 0x10000;
    assert n < 0x100000 && 1024 * (n / 1024) + n % 1024 == n && n / 1024 < 1024;
    hi, lo := 0xD800 + n / 1024, 0xDC00 + n % 1024;
  }

  lemma ReadCharUnicode(u: string)
    ensures ReadChar("\\u" + u) == ReadUnicode(u)
  {
    assert ("\\u" + u)[2..] == u;
  }

  lemma JoinPieces(a: string, b: string, c: string, rest: string)
    ensures a + b + a + c + rest == a + (b + (a + (c + rest)))
  {
  }

  lemma ReadEscapedPair(c: char, rest: string)
    requires 0x10000 <= c as int
    ensures ReadChar(EscapeChar(c) + rest) == Some((c, rest))
  {
    var hi, lo := SurrogatesOf(c);
    ReadPair(hi, lo, rest);
    JoinPieces("\\u", Hex4(hi), Hex4(lo), rest);
    ReadCharUnicode(Hex4(hi) + ("\\u" + (Hex4(lo) + rest)));
  }

  lemma ReadEscapedChar(c: char, rest: string)
    ensures ReadChar(EscapeChar(c) + rest) == Some((c, rest))
    ensures EscapeChar(c)[0] != '"'
  {
    var n := c as int;
    if 0x10000 <= n {
      ReadEscapedPair(c, rest);
    } else if EscapeChar(c) == "\\u" + Hex4(n) {
      ReadEscapedBmp(c, rest);
    } else {
      assert (EscapeChar(c) + rest)[|EscapeChar(c)|..] == rest;
    }
  }

  lemma EscapedFront(text: string, rest: string)
    requires text != ""
    ensures Escape(text) + "\"" + rest == EscapeChar(text[0]) + (Escape(text[1..]) + "\"" + rest)
  {
    JoinFour(EscapeChar(text[0]), Escape(text[1..]), "\"", rest);
  }

  lemma JoinFour(a: string, b: string, c: string, d: string)
    ensures a + b + c + d == a + (b + c + d)
  {
  }

  /** `s` starts with the escape of the first character of `text`; `tail` holds the others. */
  lemma ScanFront(text: string, s: string, tail: string, rest: string)
    requires text != "" && s == EscapeChar(text[0]) + tail && ScanString(tail) == Some((text[1..], rest))
    ensures ScanString(s) == Some((text, rest))
  {
    ReadEscapedChar(text[0], tail);
    assert [text[0]] + text[1..] == text;
  }

  /** Any text can be read back from the front of whatever follows it. */
  lemma {:induction false} ScanEscaped(text: string, rest: string)
    ensures ScanString(Escape(text) + "\"" + rest) == Some((text, rest))
  {
    if text == "" {
      ScanEnd(rest);
    } else {
      ScanEscaped(text[1..], rest);
      EscapedFront(text, rest);
      ScanFront(text, Escape(text) + "\"" + rest, Escape(text[1..]) + "\"" + rest, rest);
    }
  }

  lemma ScanEnd(rest: string)
    ensures ScanString(Escape("") + "\"" + rest) == Some(("", rest))
  {
    assert Escape("") + "\"" + rest == "\"" + rest;
  }

  lemma UnquoteQuoted(text: string, rest: string)
    ensures Unquote(Quote(text) + rest) == Some((text, rest))
  {
    var s := Quote(text) + rest;
    assert s[1..] == Escape(text) + "\"" + rest;
    ScanEscaped(text, rest);
  }

  /** Reads a fixed piece of punctuation. */
  function Expect(piece: string, s: string): (r: Option<string>)
    ensures r.Some? ==> |r.value| + |piece| == |s|
  {
    if piece <= s then Some(s[|piece|..]) else None
  }

  lemma ExpectPiece(piece: string, rest: string)
    ensures Expect(piece, piece + rest) == Some(rest)
  {
    assert (piece + rest)[|piece|..] == rest;
  }

  // ----------------------------------------------------------------------------------------
  // Lists of pairs of strings
  // ----------------------------------------------------------------------------------------

  type Pairs = seq<(string, string)>

  /** The punctuation around the two strings of a pair, between pairs, and after the last. */
  datatype Layout = Layout(before: string, between: string, after: string, separator: string, close: char)

  /** The members of an object, and the elements of an array of two-element arrays. */
  const OBJECT := Layout("", ": ", "", ", ", '}')
  const ARRAY := Layout("[", ",", "]", ",", ']')

  predicate Readable(l: Layout) {
    && l.close != '"' && (l.before != "" ==> l.before[0] != l.close)
    && l.separator != "" && l.separator[0] != l.close
  }

  function PairText(l: Layout, p: (string, string)): string {
    l.before + (Quote(p.0) + (l.between + (Quote(p.1) + l.after)))
  }

  /** The pairs and the closing bracket. */
  function PairsText(l: Layout, h: Pairs): string {
    if h == [] then [l.close]
    else if |h| == 1 then PairText(l, h[0]) + [l.close]
    else PairText(l, h[0]) + (l.separator + PairsText(l, h[1..]))
  }

  function ReadPairText(l: Layout, s: string): (r: Option<((string, string), string)>)
    ensures r.Some? ==> |r.value.1| < |s|
  {
    var t :- Expect(l.before, s);
    var (name, u) :- Unquote(t);
    var v :- Expect(l.between, u);
    var (value, w) :- Unquote(v);
    var rest :- Expect(l.after, w);
    Some(((name, value), rest))
  }

  function ReadPairs(l: Layout, s: string): Option<(Pairs, string)>
    decreases |s|
  {
    if s != "" && s[0] == l.close then Some(([], s[1..]))
    else
      var (p, t) :- ReadPairText(l, s);
      if t != "" && t[0] == l.close then Some(([p], t[1..]))
      else
        var u :- Expect(l.separator, t);
        var (more, rest) :- ReadPairs(l, u);
        if more == [] then None else Some(([p] + more, rest))
  }

  lemma ReadPairBack(l: Layout, p: (string, string), rest: string)
    requires Readable(l)
    ensures ReadPairText(l, PairText(l, p) + rest) == Some((p, rest))
    ensures PairText(l, p) != "" && PairText(l, p)[0] != l.close
  {
    var w := l.after + rest;
    var v := Quote(p.1) + w;
    var u := l.between + v;
    var t := Quote(p.0) + u;
    assert PairText(l, p) + rest == l.before + t;
    ExpectPiece(l.before, t);
    UnquoteQuoted(p.0, u);
    ExpectPiece(l.between, v);
    UnquoteQuoted(p.1, w);
    ExpectPiece(l.after, rest);
  }

  lemma ReadLastPair(l: Layout, p: (string, string), rest: string)
    requires Readable(l)
    ensures ReadPairs(l, PairText(l, p) + ([l.close] + rest)) == Some(([p], rest))
  {
    var t := [l.close] + rest;
    ReadPairBack(l, p, t);
    assert t[1..] == rest;
  }

  lemma ReadFurtherPair(l: Layout, p: (string, string), more: Pairs, u: string, rest: string)
    requires Readable(l) && more != [] && ReadPairs(l, u) == Some((more, rest))
    ensures ReadPairs(l, PairText(l, p) + (l.separator + u)) == Some(([p] + more, rest))
  {
    var t := l.separator + u;
    ReadPairBack(l, p, t);
    ExpectPiece(l.separator, u);
    assert t[0] == l.separator[0];
  }

  lemma Reassociate(a: string, b: string, c: string, rest: string)
    ensures a + (b + c) + rest == a + (b + (c + rest))
  {
  }

  lemma PairsTextFront(l: Layout, h: Pairs, rest: string)
    requires h != []
    ensures PairsText(l, h) + rest == PairText(l, h[0])
              + if |h| == 1 then [l.close] + rest else l.separator + (PairsText(l, h[1..]) + rest)
  {
    if |h| == 1 {
      Reassociate(PairText(l, h[0]), [l.close], "", rest);
      assert [l.close] + "" == [l.close] && "" + rest == rest;
    } else {
      Reassociate(PairText(l, h[0]), l.separator, PairsText(l, h[1..]), rest);
    }
  }

  /** A list of pairs can be read back from the front of whatever follows it. */
  lemma {:induction false} ReadPairsBack(l: Layout, h: Pairs, rest: string)
    requires Readable(l)
    ensures ReadPairs(l, PairsText(l, h) + rest) == Some((h, rest))
  {
    if h == [] {
      assert ([l.close] + rest)[1..] == rest;
    } else {
      PairsTextFront(l, h, rest);
      if |h| == 1 {
        ReadLastPair(l, h[0], rest);
        assert [h[0]] == h;
      } else {
        ReadPairsBack(l, h[1..], rest);
        ReadFurtherPair(l, h[0], h[1..], PairsText(l, h[1..]) + rest, rest);
        assert [h[0]] + h[1..] == h;
      }
    }
  }
}
