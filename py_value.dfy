/** The dynamically typed values that arrive from decoded AI replies, with
  * Python's truthiness and its `str()` conversion. */
module PyValue {
  import opened Text

  /** The characters of Python's `str()` of a float ("5.5", "-0.0", "1e+20",
    * "inf", "nan"). */
  predicate FloatChars(s: string)
  {
    |s| > 0 && forall i :: 0 <= i < |s| ==> s[i] in "0123456789.+-eainf"
  }

  type FloatText = s: string | FloatChars(s) witness "0.0"

  /** A float's text has no surrounding whitespace. */
  lemma FloatTextStripped(t: FloatText)
    ensures IsStripped(t) && Strip(t) == t
  {
    assert t[0] in "0123456789.+-eainf";
    assert t[|t| - 1] in "0123456789.+-eainf";
    StripOfStripped(t);
  }

  datatype Value =
    | VNone
    | VBool(b: bool)
    | VInt(i: int)
    | VFloat(shown: FloatText)
    | VStr(s: string)
    | VList(items: seq<Value>)
    | VDict(entries: seq<(string, Value)>)

  /** `bool(v)`: false for None, False, 0, 0.0, and empty strings, lists and
    * dicts. */
  predicate Truthy(v: Value)
  {
    match v
    case VNone => false
    case VBool(b) => b
    case VInt(i) => i != 0
    case VFloat(shown) => shown != "0.0" && shown != "-0.0"
    case VStr(s) => s != ""
    case VList(items) => |items| > 0
    case VDict(entries) => |entries| > 0
  }

  function IntToString(i: int): (s: string)
    ensures |s| > 0
  {
    if i < 0 then "-" + NatToString(-i) else NatToString(i)
  }

  /** The lower-case hexadecimal digit of `n`. */
  function HexDigit(n: nat): (c: char)
    requires n < 16
  {
    "0123456789abcdef"[n]
  }

  /** The value of a hexadecimal digit; 0 for any other character. */
  function HexValue(c: char): (n: nat)
    ensures n < 16
  {
    if '0' <= c <= '9' then c as int - '0' as int
    else if 'a' <= c <= 'f' then c as int - 'a' as int + 10
    else 0
  }

  /** An ASCII control character, which `repr` writes as an escape. */
  predicate IsControl(c: char)
  {
    c as int < 32 || c as int == 127
  }

  /** How `repr` writes one character of a string quoted with `q`: the
    * backslash and the quote are escaped, newline, carriage return and tab
    * take their letter, other control characters a `\x` escape. */
  function EscapeChar(c: char, q: char): (r: string)
    ensures |r| > 0
    ensures (q == '"' || q == '\'') ==>
      r[0] != q && forall k :: 0 < k < |r| && r[k] == q ==> r[k - 1] == '\\'
  {
    if c == '\\' then "\\\\"
    else if c == q then ['\\', q]
    else if c == '\n' then "\\n"
    else if c == '\r' then "\\r"
    else if c == '\t' then "\\t"
    else if IsControl(c) then ['\\', 'x', HexDigit(c as int / 16), HexDigit(c as int % 16)]
    else [c]
  }

  function EscapeAll(s: string, q: char): string
  {
    if |s| == 0 then "" else EscapeChar(s[0], q) + EscapeAll(s[1..], q)
  }

  /** The quote `repr` puts around `s`: double quotes when `s` holds a single
    * quote and no double quote, single quotes otherwise. */
  function QuoteFor(s: string): (q: char)
    ensures q == '"' || q == '\''
  {
    if '\'' in s && '"' !in s then '"' else '\''
  }

  /** `repr` of a string. */
  function StrRepr(s: string): (r: string)
    ensures |r| >= 2 && r[0] == r[|r| - 1] == QuoteFor(s)
  {
    [QuoteFor(s)] + EscapeAll(s, QuoteFor(s)) + [QuoteFor(s)]
  }

  /** Reads the body of a quoted literal back: the inverse of `EscapeAll`. */
  function Unescape(t: string): string
  {
    if |t| == 0 then ""
    else if t[0] == '\\' && |t| >= 2 then
      if t[1] == 'n' then "\n" + Unescape(t[2..])
      else if t[1] == 'r' then "\r" + Unescape(t[2..])
      else if t[1] == 't' then "\t" + Unescape(t[2..])
      else if t[1] == 'x' && |t| >= 4 then [(HexValue(t[2]) * 16 + HexValue(t[3])) as char] + Unescape(t[4..])
      else [t[1]] + Unescape(t[2..])
    else [t[0]] + Unescape(t[1..])
  }

  lemma UnescapeChar(c: char, q: char, rest: string)
    requires q == '"' || q == '\''
    ensures Unescape(EscapeChar(c, q) + rest) == [c] + Unescape(rest)
  {
    var t := EscapeChar(c, q) + rest;
    if c == '\\' || c == q || c == '\n' || c == '\r' || c == '\t' {
      assert t[2..] == rest;
    } else if IsControl(c) {
      var n := c as int;
      assert t[4..] == rest;
      assert HexValue(HexDigit(n / 16)) == n / 16;
      assert HexValue(HexDigit(n % 16)) == n % 16;
      assert (n / 16 * 16 + n % 16) as char == c;
    } else {
      assert t[1..] == rest;
    }
  }

  /** Escaping loses nothing: the body `repr` writes reads back as the string. */
  lemma {:induction false} EscapeRoundTrip(s: string, q: char)
    requires q == '"' || q == '\''
    ensures Unescape(EscapeAll(s, q)) == s
  {
    if |s| > 0 {
      UnescapeChar(s[0], q, EscapeAll(s[1..], q));
      EscapeRoundTrip(s[1..], q);
    }
  }

  /** The chosen quote never appears unescaped inside the body. */
  lemma {:induction false} EscapedQuote(s: string, q: char, i: nat)
    requires q == '"' || q == '\''
    requires i < |EscapeAll(s, q)| && EscapeAll(s, q)[i] == q
    ensures i > 0 && EscapeAll(s, q)[i - 1] == '\\'
  {
    var e := EscapeChar(s[0], q);
    var rest := EscapeAll(s[1..], q);
    assert EscapeAll(s, q) == e + rest;
    if i >= |e| {
      assert rest[i - |e|] == q;
      if i > |e| {
        EscapedQuote(s[1..], q, i - |e|);
        assert rest[i - |e| - 1] == '\\';
      }
    }
  }

  /** A one-item list shows its item between brackets. */
  lemma ReprSingleton(x: Value)
    ensures Repr(VList([x])) == "[" + Repr(x) + "]"
  {
    var items := [x];
    assert items[1..] == [];
    assert ReprItems(VList(items), items) == [Repr(x)];
  }

  lemma ApostropheQuoted()
    ensures StrRepr("it's") == "\"it's\""
  {
    var s := "it's";
    assert s[2] == '\'';
    assert '"' !in s;
    assert QuoteFor(s) == '"';
    assert EscapeAll(s, '"') == s by {
      assert EscapeAll(s[3..], '"') == "s";
      assert EscapeAll(s[2..], '"') == "'s";
      assert EscapeAll(s[1..], '"') == "t's";
    }
  }

  /** A string holding a single quote and no double quote is shown between
    * double quotes. */
  lemma ApostropheExample()
    ensures Repr(VList([VStr("it's")])) == "[\"it's\"]"
  {
    ApostropheQuoted();
    assert Repr(VStr("it's")) == "\"it's\"";
    ReprSingleton(VStr("it's"));
  }

  /** A backslash is doubled. */
  lemma BackslashExample()
    ensures Repr(VStr("a\\b")) == "'a\\\\b'"
  {
    var s := "a\\b";
    assert '\'' !in s;
    assert QuoteFor(s) == '\'';
    assert EscapeAll(s, '\'') == "a\\\\b" by {
      assert EscapeAll(s[2..], '\'') == "b";
      assert EscapeAll(s[1..], '\'') == "\\\\b";
    }
  }

  /** `repr(v)`. */
  function Repr(v: Value): (s: string)
    ensures |s| > 0
    decreases v, 1
  {
    match v
    case VNone => "None"
    case VBool(b) => if b then "True" else "False"
    case VInt(i) => IntToString(i)
    case VFloat(shown) => shown
    case VStr(s) => StrRepr(s)
    case VList(items) => "[" + Join(ReprItems(v, items), ", ") + "]"
    case VDict(entries) => "{" + Join(ReprEntries(v, entries), ", ") + "}"
  }

  function ReprItems(parent: Value, items: seq<Value>): (r: seq<string>)
    requires forall x :: x in items ==> x < parent
    ensures |r| == |items|
    decreases parent, 0, |items|
  {
    if |items| == 0 then []
    else
      assert items[0] in items;
      assert forall x :: x in items[1..] ==> x in items;
      [Repr(items[0])] + ReprItems(parent, items[1..])
  }

  function ReprEntries(parent: Value, entries: seq<(string, Value)>): (r: seq<string>)
    requires forall e :: e in entries ==> e.1 < parent
    ensures |r| == |entries|
    decreases parent, 0, |entries|
  {
    if |entries| == 0 then []
    else
      assert entries[0] in entries;
      assert forall e :: e in entries[1..] ==> e in entries;
      [StrRepr(entries[0].0) + ": " + Repr(entries[0].1)] + ReprEntries(parent, entries[1..])
  }

  /** `str(v)`: a string is itself, anything else its `repr`. */
  function Str(v: Value): (s: string)
    ensures v.VStr? ==> s == v.s
    ensures v.VNone? ==> s == "None"
  {
    if v.VStr? then v.s else Repr(v)
  }

  /** `d.get(key, default)` on a decoded object. */
  function Get(d: map<string, Value>, key: string, default: Value): (v: Value)
    ensures key in d ==> v == d[key]
    ensures key !in d ==> v == default
  {
    if key in d then d[key] else default
  }
}
