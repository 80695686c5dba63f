/** JSON text (RFC 8259) for the one shape the databases store: an array of
  * strings. `Encode` writes what Python's `json.dumps` writes with its
  * defaults (items separated by ", ", every character outside printable
  * ASCII escaped as \uXXXX with lower-case hex digits, characters above
  * U+FFFF as a surrogate pair); `Decode` reads any such array, with the
  * whitespace, escapes and surrogate pairs of sections 2, 5 and 7 of
  * RFC 8259. */
module JsonCodec {
  import opened Wrappers
  import opened Text

  // ------------------------------------------------------------- hex

  function HexDigit(n: nat): (c: char)
    requires n < 16
    ensures IsPrintableAscii(c)
  {
    if n < 10 then ('0' as int + n) as char else ('a' as int + n - 10) as char
  }

  predicate IsHexChar(c: char)
  {
    IsDigit(c) || ('a' <= c <= 'f') || ('A' <= c <= 'F')
  }

  function HexCharValue(c: char): (n: nat)
    requires IsHexChar(c)
    ensures n < 16
  {
    if IsDigit(c) then c as int - '0' as int
    else if 'a' <= c <= 'f' then c as int - 'a' as int + 10
    else c as int - 'A' as int + 10
  }

  lemma HexDigitValue(n: nat)
    requires n < 16
    ensures IsHexChar(HexDigit(n)) && HexCharValue(HexDigit(n)) == n
  {
  }

  /** Four lower-case hex digits, as `'{0:04x}'.format(n)`. */
  function Hex4(n: nat): (s: string)
    requires n < 0x10000
    ensures |s| == 4
    ensures forall i :: 0 <= i < 4 ==> IsPrintableAscii(s[i])
  {
    [HexDigit(n / 16 / 16 / 16), HexDigit(n / 16 / 16 % 16), HexDigit(n / 16 % 16), HexDigit(n % 16)]
  }

  predicate IsHex4(s: string)
  {
    |s| == 4 && IsHexChar(s[0]) && IsHexChar(s[1]) && IsHexChar(s[2]) && IsHexChar(s[3])
  }

  function Hex4Value(s: string): (n: nat)
    requires IsHex4(s)
    ensures n < 0x10000
  {
    ((HexCharValue(s[0]) * 16 + HexCharValue(s[1])) * 16 + HexCharValue(s[2])) * 16 + HexCharValue(s[3])
  }

  lemma Hex4RoundTrip(n: nat)
    requires n < 0x10000
    ensures IsHex4(Hex4(n)) && Hex4Value(Hex4(n)) == n
  {
    var q1 := n / 16;
    var q2 := q1 / 16;
    var q3 := q2 / 16;
    HexDigitValue(q3);
    HexDigitValue(q2 % 16);
    HexDigitValue(q1 % 16);
    HexDigitValue(n % 16);
    assert q2 == q3 * 16 + q2 % 16;
    assert q1 == q2 * 16 + q1 % 16;
    assert n == q1 * 16 + n % 16;
  }

  // --------------------------------------------------------- encoding

  predicate IsPrintableAscii(c: char) { ' ' <= c <= '~' }

  /** One character as `json.dumps` writes it inside a string. */
  function EscapeChar(c: char): (s: string)
    ensures |s| > 0 && s[0] != '"'
    ensures forall i :: 0 <= i < |s| ==> IsPrintableAscii(s[i])
  {
    if c == '"' then "\\\""
    else if c == '\\' then "\\\\"
    else if c == '\n' then "\\n"
    else if c == '\r' then "\\r"
    else if c == '\t' then "\\t"
    else if c as int == 8 then "\\b"
    else if c as int == 12 then "\\f"
    else if IsPrintableAscii(c) then [c]
    else if c as int < 0x10000 then UEscape(c as int)
    else
      var v := c as int - 0x10000;
      UEscape(0xD800 + v / 0x400) + UEscape(0xDC00 + v % 0x400)
  }

  /** `\uXXXX`. */
  function UEscape(n: nat): (s: string)
    requires n < 0x10000
    ensures |s| == 6 && s[0] == '\\' && s[1] == 'u' && s[2..] == Hex4(n)
    ensures forall i :: 0 <= i < |s| ==> IsPrintableAscii(s[i])
  {
    "\\u" + Hex4(n)
  }

  function EscapeAll(s: string): (r: string)
    ensures forall i :: 0 <= i < |r| ==> IsPrintableAscii(r[i])
  {
    if |s| == 0 then "" else EscapeChar(s[0]) + EscapeAll(s[1..])
  }

  function Quote(s: string): (r: string)
    ensures forall i :: 0 <= i < |r| ==> IsPrintableAscii(r[i])
  {
    "\"" + EscapeAll(s) + "\""
  }

  function EncodeItems(xs: seq<string>): (r: string)
    ensures forall i :: 0 <= i < |r| ==> IsPrintableAscii(r[i])
  {
    if |xs| == 0 then ""
    else if |xs| == 1 then Quote(xs[0])
    else Quote(xs[0]) + ", " + EncodeItems(xs[1..])
  }

  /** `json.dumps(xs)` for a list of strings: pure printable ASCII. */
  function Encode(xs: seq<string>): (r: string)
    ensures forall i :: 0 <= i < |r| ==> IsPrintableAscii(r[i])
    ensures |r| >= 2 && r[0] == '[' && r[|r| - 1] == ']'
  {
    "[" + EncodeItems(xs) + "]"
  }

  // --------------------------------------------------------- decoding

  predicate IsJsonSpace(c: char) { c == ' ' || c == '\t' || c == '\n' || c == '\r' }

  function SkipWs(s: string): (r: string)
    ensures |r| <= |s| && r == s[|s| - |r|..]
    ensures r == "" || !IsJsonSpace(r[0])
  {
    if |s| > 0 && IsJsonSpace(s[0]) then SkipWs(s[1..]) else s
  }

  /** One character of a string's contents: a plain character or an escape. */
  function ParseChar(s: string): (r: Option<(char, string)>)
    ensures r.Some? ==> |r.value.1| < |s|
  {
    if |s| == 0 || s[0] == '"' || s[0] as int < 0x20 then None
    else if s[0] != '\\' then Some((s[0], s[1..]))
    else if |s| < 2 then None
    else if s[1] == '"' then Some(('"', s[2..]))
    else if s[1] == '\\' then Some(('\\', s[2..]))
    else if s[1] == '/' then Some(('/', s[2..]))
    else if s[1] == 'b' then Some((8 as char, s[2..]))
    else if s[1] == 'f' then Some((12 as char, s[2..]))
    else if s[1] == 'n' then Some(('\n', s[2..]))
    else if s[1] == 'r' then Some(('\r', s[2..]))
    else if s[1] == 't' then Some(('\t', s[2..]))
    else if s[1] != 'u' || |s| < 6 || !IsHex4(s[2..6]) then None
    else
      var u := Hex4Value(s[2..6]);
      if 0xDC00 <= u <= 0xDFFF then None
      else if u < 0xD800 || u > 0xDBFF then Some((u as char, s[6..]))
      else if |s| < 12 || s[6] != '\\' || s[7] != 'u' || !IsHex4(s[8..12]) then None
      else
        var w := Hex4Value(s[8..12]);
        if w < 0xDC00 || w > 0xDFFF then None
        else Some(((0x10000 + (u - 0xD800) * 0x400 + (w - 0xDC00)) as char, s[12..]))
  }

  /** The contents of a string up to and including its closing quote. */
  function ParseStringBody(s: string): (r: Option<(string, string)>)
    ensures r.Some? ==> |r.value.1| < |s|
    decreases |s|
  {
    if |s| == 0 then None
    else if s[0] == '"' then Some(("", s[1..]))
    else match ParseChar(s)
      case None => None
      case Some((c, t)) =>
        match ParseStringBody(t)
        case None => None
        case Some((w, rest)) => Some(([c] + w, rest))
  }

  /** The items of an array, from the opening quote of the first one to the
    * end of the text. */
  function ParseItems(s: string): (r: Option<seq<string>>)
    decreases |s|, 1
  {
    if |s| == 0 || s[0] != '"' then None
    else match ParseStringBody(s[1..])
      case None => None
      case Some((v, rest)) => ItemsAfter(v, rest)
  }

  /** What follows item `v`: a comma and more items, or the closing bracket
    * and the end of the text. */
  function ItemsAfter(v: string, rest: string): (r: Option<seq<string>>)
    decreases |rest|, 0
  {
    var w := SkipWs(rest);
    if |w| > 0 && w[0] == ',' then
      match ParseItems(SkipWs(w[1..]))
      case None => None
      case Some(vs) => Some([v] + vs)
    else if |w| > 0 && w[0] == ']' && SkipWs(w[1..]) == "" then Some([v])
    else None
  }

  /** `json.loads(s)` when the text is an array of strings; `None` for any
    * other text. */
  function Decode(s: string): (r: Option<seq<string>>)
  {
    var t := SkipWs(s);
    if |t| == 0 || t[0] != '[' then None else ArrayBody(SkipWs(t[1..]))
  }

  /** An array after its opening bracket. */
  function ArrayBody(u: string): (r: Option<seq<string>>)
  {
    if |u| > 0 && u[0] == ']' then (if SkipWs(u[1..]) == "" then Some([]) else None)
    else ParseItems(u)
  }

  // -------------------------------------------------------- round trip

  lemma ParseShortEscape(c: char, t: string)
    requires c == '"' || c == '\\' || c == '\n' || c == '\r' || c == '\t' || c as int == 8 || c as int == 12
    ensures ParseChar(EscapeChar(c) + t) == Some((c, t))
  {
    var s := EscapeChar(c) + t;
    assert |EscapeChar(c)| == 2 && s[0] == '\\';
    assert s[2..] == t;
  }

  lemma ParseBmpEscape(c: char, t: string)
    requires !IsPrintableAscii(c) && c as int < 0x10000
    requires !(c == '\n' || c == '\r' || c == '\t' || c as int == 8 || c as int == 12)
    ensures ParseChar(EscapeChar(c) + t) == Some((c, t))
  {
    var e := EscapeChar(c);
    assert e == UEscape(c as int);
    var s := e + t;
    Hex4RoundTrip(c as int);
    assert s[0] == '\\' && s[1] == 'u';
    assert s[2..6] == Hex4(c as int);
    assert s[6..] == t;
  }

  lemma SurrogateArithmetic(n: int)
    requires 0x10000 <= n <= 0x10FFFF
    ensures 0xD800 <= 0xD800 + (n - 0x10000) / 0x400 <= 0xDBFF
    ensures 0xDC00 <= 0xDC00 + (n - 0x10000) % 0x400 <= 0xDFFF
    ensures 0x10000 + ((n - 0x10000) / 0x400) * 0x400 + (n - 0x10000) % 0x400 == n
  {
  }

  lemma ParseAstralEscape(c: char, t: string)
    requires c as int >= 0x10000
    ensures ParseChar(EscapeChar(c) + t) == Some((c, t))
  {
    var v := c as int - 0x10000;
    var hi, lo := 0xD800 + v / 0x400, 0xDC00 + v % 0x400;
    SurrogateArithmetic(c as int);
    var e := EscapeChar(c);
    assert e == UEscape(hi) + UEscape(lo);
    var s := e + t;
    Hex4RoundTrip(hi);
    Hex4RoundTrip(lo);
    assert s[0] == '\\' && s[1] == 'u';
    assert s[2..6] == Hex4(hi);
    assert s[6] == '\\' && s[7] == 'u';
    assert s[8..12] == Hex4(lo);
    assert s[12..] == t;
  }

  lemma ParseEscapedChar(c: char, t: string)
    ensures ParseChar(EscapeChar(c) + t) == Some((c, t))
  {
    if c == '"' || c == '\\' || c == '\n' || c == '\r' || c == '\t' || c as int == 8 || c as int == 12 {
      ParseShortEscape(c, t);
    } else if IsPrintableAscii(c) {
      var s := EscapeChar(c) + t;
      assert s[1..] == t;
    } else if c as int < 0x10000 {
      ParseBmpEscape(c, t);
    } else {
      ParseAstralEscape(c, t);
    }
  }

  lemma {:induction false} ParseEscapedBody(v: string, rest: string)
    ensures ParseStringBody(EscapeAll(v) + "\"" + rest) == Some((v, rest))
    decreases |v|
  {
    var s := EscapeAll(v) + "\"" + rest;
    if |v| == 0 {
      assert s == "\"" + rest;
      assert s[1..] == rest;
    } else {
      var t := EscapeAll(v[1..]) + "\"" + rest;
      assert s == EscapeChar(v[0]) + t;
      ParseEscapedChar(v[0], t);
      ParseEscapedBody(v[1..], rest);
      assert [v[0]] + v[1..] == v;
    }
  }

  lemma ParseQuoted(x: string, rest: string)
    ensures ParseItems("\"" + EscapeAll(x) + "\"" + rest) == ItemsAfter(x, rest)
  {
    var s := "\"" + EscapeAll(x) + "\"" + rest;
    assert s[1..] == EscapeAll(x) + "\"" + rest;
    ParseEscapedBody(x, rest);
  }

  lemma ItemsAfterLast(x: string)
    ensures ItemsAfter(x, "]") == Some([x])
  {
    var w := "]";
    SkipWsNone(w);
    assert w[1..] == "";
  }

  lemma ItemsAfterComma(x: string, tail: string)
    requires |tail| > 0 && tail[0] == '"'
    ensures ItemsAfter(x, ", " + tail) == match ParseItems(tail) case None => None case Some(vs) => Some([x] + vs)
  {
    var rest := ", " + tail;
    SkipWsNone(rest);
    assert rest[1..] == " " + tail;
    SkipWsOne(tail);
  }

  lemma SkipWsNone(s: string)
    requires |s| > 0 && !IsJsonSpace(s[0])
    ensures SkipWs(s) == s
  {
  }

  lemma SkipWsOne(t: string)
    requires |t| > 0 && !IsJsonSpace(t[0])
    ensures SkipWs(" " + t) == t
  {
    assert (" " + t)[1..] == t;
    SkipWsNone(t);
  }

  lemma EncodeItemsShape(xs: seq<string>)
    requires |xs| > 0
    ensures |xs| == 1 ==> EncodeItems(xs) + "]" == "\"" + EscapeAll(xs[0]) + "\"" + "]"
    ensures |xs| > 1 ==> EncodeItems(xs) + "]" == "\"" + EscapeAll(xs[0]) + "\"" + (", " + (EncodeItems(xs[1..]) + "]"))
    ensures |xs| > 1 ==> |EncodeItems(xs[1..]) + "]"| > 0 && (EncodeItems(xs[1..]) + "]")[0] == '"'
  {
  }

  lemma Singleton<T>(xs: seq<T>)
    requires |xs| == 1
    ensures xs == [xs[0]]
  {
  }

  lemma ConsTail<T>(xs: seq<T>)
    requires |xs| > 0
    ensures xs == [xs[0]] + xs[1..]
  {
  }

  lemma {:induction false} ParseEncodedItems(xs: seq<string>)
    requires |xs| > 0
    ensures ParseItems(EncodeItems(xs) + "]") == Some(xs)
    decreases |xs|
  {
    var x := xs[0];
    EncodeItemsShape(xs);
    if |xs| == 1 {
      ParseQuoted(x, "]");
      ItemsAfterLast(x);
      Singleton(xs);
    } else {
      var tail := EncodeItems(xs[1..]) + "]";
      ParseQuoted(x, ", " + tail);
      ItemsAfterComma(x, tail);
      ParseEncodedItems(xs[1..]);
      ConsTail(xs);
    }
  }

  lemma DecodeEmptyArray()
    ensures Decode("[]") == Some([])
  {
    var s, u := "[]", "]";
    SkipWsNone(s);
    assert s[1..] == u;
    SkipWsNone(u);
    assert u[1..] == "";
  }

  lemma DecodeBracketed(body: string)
    requires |body| > 0 && body[0] == '"'
    ensures Decode("[" + body) == ParseItems(body)
  {
    var s := "[" + body;
    assert SkipWs(s) == s;
    assert s[1..] == body;
    assert SkipWs(body) == body;
    assert ArrayBody(body) == ParseItems(body);
  }

  /** Reading back what `Encode` wrote gives the same list. */
  lemma EncodeDecode(xs: seq<string>)
    ensures Decode(Encode(xs)) == Some(xs)
  {
    if |xs| == 0 {
      assert Encode(xs) == "[]";
      DecodeEmptyArray();
    } else {
      var body := EncodeItems(xs) + "]";
      assert EncodeItems(xs)[0] == '"';
      assert Encode(xs) == "[" + body;
      DecodeBracketed(body);
      ParseEncodedItems(xs);
    }
  }
}
