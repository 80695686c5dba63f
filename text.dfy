/** Character and string operations with the meaning Python's `str` methods
  * have on ASCII text: `lower`, `upper`, `strip`, `split`, `join`, `in`,
  * `startswith`, `replace`, `capitalize`, `title`, `isdigit`, `isalpha` and
  * slicing with Python's clamping of out-of-range and negative bounds. */
module Text {
  import opened Wrappers

  // ---------------------------------------------------------------- chars

  /** Python's whitespace among the ASCII characters: space, \t \n \v \f \r
    * and the four separators \x1c..\x1f. */
  predicate IsSpace(c: char)
  {
    c == ' ' || (9 <= c as int <= 13) || (28 <= c as int <= 31)
  }

  predicate IsUpper(c: char) { 'A' <= c <= 'Z' }
  predicate IsLower(c: char) { 'a' <= c <= 'z' }
  predicate IsLetter(c: char) { IsUpper(c) || IsLower(c) }
  predicate IsDigit(c: char) { '0' <= c <= '9' }
  predicate IsAlnum(c: char) { IsLetter(c) || IsDigit(c) }

  /** The regular-expression class `\w` on ASCII text. */
  predicate IsWordChar(c: char) { IsAlnum(c) || c == '_' }

  function LowerChar(c: char): (r: char)
    ensures !IsUpper(r)
    ensures IsLetter(c) <==> IsLetter(r)
    ensures IsUpper(c) ==> r as int == c as int + 32
    ensures !IsUpper(c) ==> r == c
  {
    if IsUpper(c) then (c as int + 32) as char else c
  }

  function UpperChar(c: char): (r: char)
    ensures !IsLower(r)
    ensures IsLetter(c) <==> IsLetter(r)
    ensures IsLower(c) ==> r as int == c as int - 32
    ensures !IsLower(c) ==> r == c
  {
    if IsLower(c) then (c as int - 32) as char else c
  }

  // ------------------------------------------------------ case mapping

  function Lower(s: string): (r: string)
    ensures |r| == |s|
    ensures forall i :: 0 <= i < |s| ==> r[i] == LowerChar(s[i])
  {
    if |s| == 0 then "" else [LowerChar(s[0])] + Lower(s[1..])
  }

  function Upper(s: string): (r: string)
    ensures |r| == |s|
    ensures forall i :: 0 <= i < |s| ==> r[i] == UpperChar(s[i])
  {
    if |s| == 0 then "" else [UpperChar(s[0])] + Upper(s[1..])
  }

  lemma LowerIdempotent(s: string)
    ensures Lower(Lower(s)) == Lower(s)
  {
  }

  lemma LowerAppend(a: string, b: string)
    ensures Lower(a + b) == Lower(a) + Lower(b)
  {
  }

  lemma UpperOfUncased(s: string)
    requires forall i :: 0 <= i < |s| ==> !IsLower(s[i])
    ensures Upper(s) == s
  {
  }

  lemma UpperAppend(a: string, b: string)
    ensures Upper(a + b) == Upper(a) + Upper(b)
  {
  }

  /** `str.capitalize`: the first character upper case, the rest lower case. */
  function Capitalize(s: string): (r: string)
    ensures |r| == |s|
    ensures |s| > 0 ==> r[0] == UpperChar(s[0]) && r[1..] == Lower(s[1..])
  {
    if |s| == 0 then "" else [UpperChar(s[0])] + Lower(s[1..])
  }

  /** `str.title`: a letter is upper case when the character before it is not
    * a letter, lower case otherwise; other characters are unchanged. */
  function Title(s: string): (r: string)
    ensures |r| == |s|
    ensures forall i :: 0 <= i < |s| && (i == 0 || !IsLetter(s[i - 1])) ==> r[i] == UpperChar(s[i])
    ensures forall i :: 0 < i < |s| && IsLetter(s[i - 1]) ==> r[i] == LowerChar(s[i])
  {
    TitleAfter(s, false)
  }

  function TitleAfter(s: string, prevLetter: bool): (r: string)
    ensures |r| == |s|
    ensures |s| > 0 ==> r[0] == (if prevLetter then LowerChar(s[0]) else UpperChar(s[0]))
    ensures forall i :: 0 < i < |s| && !IsLetter(s[i - 1]) ==> r[i] == UpperChar(s[i])
    ensures forall i :: 0 < i < |s| && IsLetter(s[i - 1]) ==> r[i] == LowerChar(s[i])
  {
    if |s| == 0 then ""
    else
      var c := if prevLetter then LowerChar(s[0]) else UpperChar(s[0]);
      var rest := TitleAfter(s[1..], IsLetter(s[0]));
      assert forall i :: 0 < i < |s| ==> s[i] == s[1..][i - 1];
      [c] + rest
  }

  // ---------------------------------------------------------- strip

  function LStrip(s: string): (r: string)
    ensures |r| <= |s|
    ensures r == "" || !IsSpace(r[0])
    ensures forall i :: 0 <= i < |s| - |r| ==> IsSpace(s[i])
  {
    if |s| > 0 && IsSpace(s[0]) then LStrip(s[1..]) else s
  }

  function RStrip(s: string): (r: string)
    ensures |r| <= |s|
    ensures r == "" || !IsSpace(r[|r| - 1])
    ensures forall i :: |r| <= i < |s| ==> IsSpace(s[i])
  {
    if |s| > 0 && IsSpace(s[|s| - 1]) then RStrip(s[..|s| - 1]) else s
  }

  /** `str.strip()`: the longest piece of `s` without whitespace at either end. */
  function Strip(s: string): (r: string)
    ensures |r| <= |s|
    ensures r == "" || (!IsSpace(r[0]) && !IsSpace(r[|r| - 1]))
    ensures |r| <= |LStrip(s)|
  {
    RStripPrefix(LStrip(s));
    RStrip(LStrip(s))
  }

  /** `LStrip(s)` is a suffix of `s`. */
  lemma {:induction false} LStripSuffix(s: string)
    ensures LStrip(s) == s[|s| - |LStrip(s)|..]
    decreases |s|
  {
    if |s| > 0 && IsSpace(s[0]) {
      LStripSuffix(s[1..]);
    }
  }

  /** `RStrip(s)` is a prefix of `s`. */
  lemma {:induction false} RStripPrefix(s: string)
    ensures RStrip(s) == s[..|RStrip(s)|]
    decreases |s|
  {
    if |s| > 0 && IsSpace(s[|s| - 1]) {
      RStripPrefix(s[..|s| - 1]);
    }
  }

  /** `Strip(s)` is a prefix of `LStrip(s)`. */
  lemma StripPrefix(s: string)
    ensures Strip(s) == LStrip(s)[..|Strip(s)|]
  {
    RStripPrefix(LStrip(s));
  }

  /** Stripping only removes characters. */
  lemma StripChars(s: string)
    ensures forall c :: c in Strip(s) ==> c in s
  {
    var r := Strip(s);
    forall c | c in r
      ensures c in s
    {
      var i :| 0 <= i < |r| && r[i] == c;
      StripAt(s, i);
    }
  }

  /** The `i`-th character of the strip, as a position in `s`. */
  lemma StripAt(s: string, i: int)
    requires 0 <= i < |Strip(s)|
    ensures |s| - |LStrip(s)| + i < |s| && Strip(s)[i] == s[|s| - |LStrip(s)| + i]
  {
    StripPrefix(s);
    LStripSuffix(s);
  }

  /** Stripping keeps any property every character has. */
  lemma StripKeeps(s: string, p: char -> bool)
    requires forall i :: 0 <= i < |s| ==> p(s[i])
    ensures forall i :: 0 <= i < |Strip(s)| ==> p(Strip(s)[i])
  {
    forall i | 0 <= i < |Strip(s)|
      ensures p(Strip(s)[i])
    {
      StripAt(s, i);
    }
  }

  /** Every string stripped. */
  function Stripped(xs: seq<string>): (r: seq<string>)
    ensures |r| == |xs|
    ensures forall k :: 0 <= k < |r| ==> IsStripped(r[k])
  {
    if |xs| == 0 then [] else Stripped(xs[..|xs| - 1]) + [Strip(xs[|xs| - 1])]
  }

  lemma StrippedNoop(xs: seq<string>)
    requires forall p :: p in xs ==> IsStripped(p)
    ensures Stripped(xs) == xs
  {
    forall k | 0 <= k < |xs|
      ensures Stripped(xs)[k] == xs[k]
    {
      StrippedAt(xs, k);
      StripOfStripped(xs[k]);
    }
  }

  lemma {:induction false} StrippedAt(xs: seq<string>, k: nat)
    requires k < |xs|
    ensures Stripped(xs)[k] == Strip(xs[k])
    decreases |xs|
  {
    if k < |xs| - 1 {
      assert xs[..|xs| - 1][k] == xs[k];
      StrippedAt(xs[..|xs| - 1], k);
    }
  }

  /** A string with no whitespace at its ends is its own strip. */
  predicate IsStripped(s: string)
  {
    s == "" || (!IsSpace(s[0]) && !IsSpace(s[|s| - 1]))
  }

  lemma StripOfStripped(s: string)
    requires IsStripped(s)
    ensures Strip(s) == s
  {
  }

  lemma StripIdempotent(s: string)
    ensures Strip(Strip(s)) == Strip(s)
  {
    StripOfStripped(Strip(s));
  }

  lemma StripAllSpace(s: string)
    requires forall i :: 0 <= i < |s| ==> IsSpace(s[i])
    ensures Strip(s) == ""
  {
    LStripSuffix(s);
  }

  /** Strip ignores whitespace added in front. */
  lemma StripSpacePrefix(s: string)
    requires IsStripped(s) && s != ""
    ensures Strip(" " + s) == s
  {
    assert (" " + s)[1..] == s;
    assert LStrip(" " + s) == LStrip(s);
    StripOfStripped(s);
  }

  predicate AllSpace(s: string)
  {
    forall i :: 0 <= i < |s| ==> IsSpace(s[i])
  }

  lemma {:induction false} LStripSpaces(pre: string, s: string)
    requires AllSpace(pre) && (s == "" || !IsSpace(s[0]))
    ensures LStrip(pre + s) == s
    decreases |pre|
  {
    if |pre| == 0 {
      assert pre + s == s;
    } else {
      assert (pre + s)[1..] == pre[1..] + s;
      LStripSpaces(pre[1..], s);
    }
  }

  lemma {:induction false} RStripSpaces(s: string, post: string)
    requires AllSpace(post) && (s == "" || !IsSpace(s[|s| - 1]))
    ensures RStrip(s + post) == s
    decreases |post|
  {
    if |post| == 0 {
      assert s + post == s;
    } else {
      var n := |post|;
      assert (s + post)[..|s + post| - 1] == s + post[..n - 1];
      RStripSpaces(s, post[..n - 1]);
    }
  }

  /** Strip removes whitespace padding around a stripped, non-empty text. */
  lemma StripPadded(pre: string, s: string, post: string)
    requires AllSpace(pre) && AllSpace(post) && s != "" && IsStripped(s)
    ensures Strip(pre + s + post) == s
  {
    var t := s + post;
    assert t[0] == s[0];
    calc {
      Strip(pre + s + post);
      { assert pre + s + post == pre + t; }
      RStrip(LStrip(pre + t));
      { LStripSpaces(pre, t); }
      RStrip(t);
      { RStripSpaces(s, post); }
      s;
    }
  }

  // ------------------------------------------------------ prefixes, search

  predicate StartsWith<T(==)>(s: seq<T>, p: seq<T>)
  {
    |p| <= |s| && s[..|p|] == p
  }

  predicate EndsWith<T(==)>(s: seq<T>, p: seq<T>)
  {
    |p| <= |s| && s[|s| - |p|..] == p
  }

  /** The substring test `sub in s`. */
  predicate Contains<T(==)>(s: seq<T>, sub: seq<T>)
    decreases |s|
  {
    StartsWith(s, sub) || (|s| > 0 && Contains(s[1..], sub))
  }

  predicate OccursAt<T(==)>(s: seq<T>, sub: seq<T>, i: int)
  {
    0 <= i && i + |sub| <= |s| && s[i..i + |sub|] == sub
  }

  lemma {:induction false} ContainsIff<T>(s: seq<T>, sub: seq<T>)
    ensures Contains(s, sub) <==> exists i :: OccursAt(s, sub, i)
    decreases |s|
  {
    if |s| > 0 {
      ContainsIff(s[1..], sub);
    }
    if Contains(s, sub) {
      if StartsWith(s, sub) {
        assert OccursAt(s, sub, 0);
      } else {
        var i :| OccursAt(s[1..], sub, i);
        assert s[1..][i..i + |sub|] == s[i + 1..i + 1 + |sub|];
        assert OccursAt(s, sub, i + 1);
      }
    }
    if exists i :: OccursAt(s, sub, i) {
      var i :| OccursAt(s, sub, i);
      if i == 0 {
        assert StartsWith(s, sub);
      } else {
        assert s[1..][i - 1..i - 1 + |sub|] == s[i..i + |sub|];
        assert OccursAt(s[1..], sub, i - 1);
      }
    }
  }

  /** A sequence lacking one of the elements of `sub` does not contain it. */
  lemma AbsentNotContained<T>(s: seq<T>, sub: seq<T>, c: T)
    requires c in sub && c !in s
    ensures !Contains(s, sub)
  {
    ContainsIff(s, sub);
  }

  /** A lower-case letter is absent from the lowercased text when neither
    * it nor its capital occurs. */
  lemma LowerAbsent(s: string, c: char, upper: char)
    requires 'a' <= c <= 'z' && upper as int == c as int - 32
    requires c !in s && upper !in s
    ensures c !in Lower(s)
  {
    forall i | 0 <= i < |s|
      ensures Lower(s)[i] != c
    {
      assert s[i] != c && s[i] != upper;
    }
  }

  lemma ContainsAt<T>(s: seq<T>, sub: seq<T>, i: int)
    requires OccursAt(s, sub, i)
    ensures Contains(s, sub)
  {
    ContainsIff(s, sub);
  }

  /** An occurrence of `sub` in `p + t` lies in `t` when `p` holds no
    * character `sub` starts with. */
  lemma {:induction false} ContainsPastPrefix<T>(p: seq<T>, t: seq<T>, sub: seq<T>)
    requires |sub| > 0 && sub[0] !in p && Contains(p + t, sub)
    ensures Contains(t, sub)
    decreases |p|
  {
    if |p| == 0 {
      assert p + t == t;
    } else {
      assert (p + t)[0] == p[0];
      assert (p + t)[1..] == p[1..] + t;
      ContainsPastPrefix(p[1..], t, sub);
    }
  }

  lemma ContainsEmpty<T>(s: seq<T>)
    ensures Contains(s, [])
  {
    assert StartsWith(s, []);
  }

  lemma ContainsSelf<T>(s: seq<T>)
    ensures Contains(s, s)
  {
    assert s[..|s|] == s;
  }

  /** The first index at or after `from` where `sub` occurs, if any. */
  function FindFrom<T(==)>(s: seq<T>, sub: seq<T>, from: nat): (r: Option<nat>)
    ensures r.Some? ==> from <= r.value && OccursAt(s, sub, r.value)
    ensures r.Some? ==> forall j :: from <= j < r.value ==> !OccursAt(s, sub, j)
    ensures r.None? ==> forall j :: from <= j ==> !OccursAt(s, sub, j)
    decreases |s| - from
  {
    if from + |sub| > |s| then None
    else if s[from..from + |sub|] == sub then Some(from)
    else FindFrom(s, sub, from + 1)
  }

  /** The first index of character `c` in `s`. */
  function IndexOf(s: string, c: char): (r: nat)
    requires c in s
    ensures r < |s| && s[r] == c && c !in s[..r]
  {
    if s[0] == c then 0 else 1 + IndexOf(s[1..], c)
  }

  // --------------------------------------------------------- split, join

  /** `sep.join(parts)`. */
  function Join(parts: seq<string>, sep: string): (r: string)
  {
    if |parts| == 0 then ""
    else if |parts| == 1 then parts[0]
    else parts[0] + sep + Join(parts[1..], sep)
  }

  /** `s.split(sep)` for a one-character separator. */
  function Split(s: string, sep: char): (r: seq<string>)
    ensures |r| >= 1
    ensures forall p :: p in r ==> sep !in p
    ensures Join(r, [sep]) == s
    decreases |s|
  {
    if sep !in s then [s]
    else
      var i := IndexOf(s, sep);
      var rest := Split(s[i + 1..], sep);
      assert s == s[..i] + [sep] + s[i + 1..];
      [s[..i]] + rest
  }

  lemma SplitNoSep(s: string, sep: char)
    requires sep !in s
    ensures Split(s, sep) == [s]
  {
  }

  lemma {:induction false} IndexOfAfter(a: string, c: char, b: string)
    requires c !in a
    ensures c in a + [c] + b && IndexOf(a + [c] + b, c) == |a|
    decreases |a|
  {
    assert (a + [c] + b)[|a|] == c;
    if |a| > 0 {
      assert (a + [c] + b)[1..] == a[1..] + [c] + b;
      IndexOfAfter(a[1..], c, b);
    }
  }

  /** `Split` undoes `Join` when no part contains the separator. */
  lemma {:induction false} SplitJoin(parts: seq<string>, sep: char)
    requires |parts| >= 1
    requires forall p :: p in parts ==> sep !in p
    ensures Split(Join(parts, [sep]), sep) == parts
    decreases |parts|
  {
    if |parts| > 1 {
      var tail := Join(parts[1..], [sep]);
      var s := parts[0] + [sep] + tail;
      assert Join(parts, [sep]) == s;
      IndexOfAfter(parts[0], sep, tail);
      assert s[..|parts[0]|] == parts[0];
      assert s[|parts[0]| + 1..] == tail;
      SplitJoin(parts[1..], sep);
      assert parts == [parts[0]] + parts[1..];
    }
  }

  /** A character absent from a text is absent from its pieces. */
  lemma SplitPiece(t: string, sep: char, k: nat, c: char)
    requires c !in t && k < |Split(t, sep)|
    ensures c !in Split(t, sep)[k]
  {
    var parts := Split(t, sep);
    if c in parts[k] {
      JoinHas(parts, [sep], k, c);
    }
  }

  /** A character of an item is in the join. */
  lemma {:induction false} JoinHas(parts: seq<string>, sep: string, k: nat, c: char)
    requires k < |parts| && c in parts[k]
    ensures c in Join(parts, sep)
    decreases |parts|
  {
    if |parts| > 1 {
      if k > 0 {
        JoinHas(parts[1..], sep, k - 1, c);
      }
    }
  }

  /** A prefix of the first part is a prefix of the join. */
  lemma JoinHeadPrefix(pre: string, a: string, rest: seq<string>, sep: string)
    ensures Join([pre + a] + rest, sep) == pre + Join([a] + rest, sep)
  {
    if |rest| > 0 {
      assert ([pre + a] + rest)[1..] == rest && ([a] + rest)[1..] == rest;
    }
  }

  /** The pieces of `Join(xs, a + [c] + b)` between the `c`s: every item but
    * the first carries `b` in front, every item but the last `a` behind. */
  function Framed(xs: seq<string>, a: string, b: string): (r: seq<string>)
    requires |xs| >= 1
    ensures |r| == |xs|
    ensures forall k :: 0 <= k < |r| ==> r[k] == (if k > 0 then b else "") + xs[k] + (if k < |xs| - 1 then a else "")
  {
    seq(|xs|, k requires 0 <= k < |xs| => (if k > 0 then b else "") + xs[k] + (if k < |xs| - 1 then a else ""))
  }

  lemma {:induction false} JoinFramed(xs: seq<string>, a: string, c: char, b: string)
    requires |xs| >= 1
    ensures Join(xs, a + [c] + b) == Join(Framed(xs, a, b), [c])
    decreases |xs|
  {
    var f := Framed(xs, a, b);
    if |xs| == 1 {
      assert f[0] == "" + xs[0] + "";
      assert "" + xs[0] + "" == xs[0];
    } else {
      var tail := xs[1..];
      JoinFramed(tail, a, c, b);
      var g := Framed(tail, a, b);
      var rest := FramedTail(xs, a, b);
      JoinHeadPrefix(b, g[0], g[1..], [c]);
      assert Join(f[1..], [c]) == b + Join(g, [c]);
      calc {
        Join(f, [c]);
        f[0] + [c] + Join(f[1..], [c]);
        xs[0] + a + [c] + (b + Join(tail, a + [c] + b));
        xs[0] + (a + [c] + b) + Join(tail, a + [c] + b);
      }
    }
  }

  /** The ", " case of `SplitFramed`: a comma list written with ", " splits back at its commas. */
  lemma SplitCommaSpace(xs: seq<string>)
    requires |xs| >= 1
    requires forall k :: 0 <= k < |xs| ==> xs[k] != "" && IsStripped(xs[k]) && ',' !in xs[k]
    ensures Stripped(Split(Join(xs, ", "), ',')) == xs
  {
    var a, b := CommaSpacePads();
    SplitFramed(xs, a, ',', b);
  }

  lemma CommaSpacePads() returns (a: string, b: string)
    ensures AllSpace(a) && AllSpace(b) && ',' !in a && ',' !in b
    ensures a + [','] + b == ", "
  {
    a, b := "", " ";
  }

  /** After the first piece, `Framed(xs, …)` is `Framed(xs[1..], …)` with `b` before its head. */
  lemma FramedTail(xs: seq<string>, a: string, b: string) returns (g: seq<string>)
    requires |xs| >= 2
    ensures g == Framed(xs[1..], a, b)
    ensures Framed(xs, a, b)[0] == xs[0] + a
    ensures Framed(xs, a, b)[1..] == [b + g[0]] + g[1..]
    ensures g == [g[0]] + g[1..]
  {
    var f := Framed(xs, a, b);
    var tail := xs[1..];
    g := Framed(tail, a, b);
    assert f[0] == "" + xs[0] + a;
    var lastA := if 1 < |xs| - 1 then a else "";
    assert g[0] == "" + tail[0] + lastA;
    assert g[0] == xs[1] + lastA;
    assert f[1] == b + xs[1] + lastA;
    assert f[1] == b + g[0];
    forall k | 2 <= k < |f|
      ensures f[k] == g[k - 1]
    {
      assert tail[k - 1] == xs[k];
    }
    assert f[1..] == [b + g[0]] + g[1..];
  }

  /** Splitting at `c` a join whose separator is `c` padded with whitespace,
    * then stripping every piece, gives back the items. */
  lemma SplitFramed(xs: seq<string>, a: string, c: char, b: string)
    requires |xs| >= 1 && AllSpace(a) && AllSpace(b) && c !in a && c !in b
    requires forall k :: 0 <= k < |xs| ==> xs[k] != "" && IsStripped(xs[k]) && c !in xs[k]
    ensures Stripped(Split(Join(xs, a + [c] + b), c)) == xs
  {
    SplitOfFramed(xs, a, c, b);
    StrippedFramed(xs, a, b);
  }

  lemma SplitOfFramed(xs: seq<string>, a: string, c: char, b: string)
    requires |xs| >= 1 && c !in a && c !in b
    requires forall k :: 0 <= k < |xs| ==> c !in xs[k]
    ensures Split(Join(xs, a + [c] + b), c) == Framed(xs, a, b)
  {
    var f := Framed(xs, a, b);
    JoinFramed(xs, a, c, b);
    forall p | p in f
      ensures c !in p
    {
      var k :| 0 <= k < |f| && f[k] == p;
    }
    SplitJoin(f, c);
  }

  lemma StrippedFramed(xs: seq<string>, a: string, b: string)
    requires |xs| >= 1 && AllSpace(a) && AllSpace(b)
    requires forall k :: 0 <= k < |xs| ==> xs[k] != "" && IsStripped(xs[k])
    ensures Stripped(Framed(xs, a, b)) == xs
  {
    var f := Framed(xs, a, b);
    forall k | 0 <= k < |xs|
      ensures Stripped(f)[k] == xs[k]
    {
      StrippedAt(f, k);
      StripPadded(if k > 0 then b else "", xs[k], if k < |xs| - 1 then a else "");
    }
  }

  /** A character found in neither the parts nor the separator is not in the join. */
  lemma {:induction false} JoinExcludes(parts: seq<string>, sep: string, c: char)
    requires c !in sep && forall p :: p in parts ==> c !in p
    ensures c !in Join(parts, sep)
    decreases |parts|
  {
    if |parts| > 0 {
      assert parts[0] in parts;
    }
    if |parts| > 1 {
      assert forall p :: p in parts[1..] ==> p in parts;
      JoinExcludes(parts[1..], sep, c);
    }
  }

  /** Non-empty stripped parts joined by a non-space separator give a stripped text. */
  lemma {:induction false} JoinStripped(parts: seq<string>, sep: string)
    requires |parts| >= 1
    requires forall p :: p in parts ==> p != "" && IsStripped(p)
    ensures Join(parts, sep) != "" && IsStripped(Join(parts, sep))
    decreases |parts|
  {
    assert parts[0] in parts;
    if |parts| > 1 {
      assert forall p :: p in parts[1..] ==> p in parts;
      JoinStripped(parts[1..], sep);
      var tail := Join(parts[1..], sep);
      var s := parts[0] + sep + tail;
      assert s[0] == parts[0][0];
      assert s[|s| - 1] == tail[|tail| - 1];
    }
  }

  /** The length of the run of non-whitespace characters at the start of `s`. */
  function TokenLength(s: string): (n: nat)
    ensures n <= |s|
    ensures forall i :: 0 <= i < n ==> !IsSpace(s[i])
    ensures n < |s| ==> IsSpace(s[n])
  {
    if |s| == 0 || IsSpace(s[0]) then 0 else 1 + TokenLength(s[1..])
  }

  /** A non-empty piece of text without whitespace. */
  predicate IsToken(w: string)
  {
    |w| > 0 && forall i :: 0 <= i < |w| ==> !IsSpace(w[i])
  }

  /** `s.split()`: the maximal runs of non-whitespace characters. */
  function SplitWs(s: string): (r: seq<string>)
    ensures forall w :: w in r ==> IsToken(w)
    decreases |s|
  {
    var t := LStrip(s);
    if t == "" then []
    else
      var n := TokenLength(t);
      assert n > 0;
      var head := t[..n];
      assert IsToken(head);
      var rest := SplitWs(t[n..]);
      [head] + rest
  }

  // ------------------------------------------------------- replacement

  /** `s.replace(pat, rep)`: left-to-right, non-overlapping occurrences. */
  function Replace(s: string, pat: string, rep: string): (r: string)
    requires |pat| > 0
    decreases |s|
  {
    if |s| == 0 then ""
    else if StartsWith(s, pat) then rep + Replace(s[|pat|..], pat, rep)
    else [s[0]] + Replace(s[1..], pat, rep)
  }

  lemma {:induction false} ReplaceAbsent(s: string, pat: string, rep: string)
    requires |pat| > 0 && !Contains(s, pat)
    ensures Replace(s, pat, rep) == s
    decreases |s|
  {
    if |s| > 0 {
      ReplaceAbsent(s[1..], pat, rep);
      assert [s[0]] + s[1..] == s;
    }
  }

  /** Removing `pat` skips text without its first character. */
  lemma {:induction false} ReplaceSkips(a: string, b: string, pat: string)
    requires |pat| > 0 && pat[0] !in a
    ensures Replace(a + b, pat, "") == a + Replace(b, pat, "")
    decreases |a|
  {
    if |a| == 0 {
      assert a + b == b;
    } else {
      var s := a + b;
      assert a[0] in a;
      assert !StartsWith(s, pat) by {
        assert s[0] == a[0];
      }
      assert s[1..] == a[1..] + b;
      assert forall c :: c in a[1..] ==> c in a;
      ReplaceSkips(a[1..], b, pat);
      calc {
        Replace(s, pat, "");
        [s[0]] + Replace(s[1..], pat, "");
        [a[0]] + (a[1..] + Replace(b, pat, ""));
        ([a[0]] + a[1..]) + Replace(b, pat, "");
        { assert [a[0]] + a[1..] == a; }
        a + Replace(b, pat, "");
      }
    }
  }

  /** An occurrence at the very start is removed. */
  lemma ReplaceHead(pat: string, b: string)
    requires |pat| > 0
    ensures Replace(pat + b, pat, "") == Replace(b, pat, "")
  {
    assert (pat + b)[..|pat|] == pat;
    assert (pat + b)[|pat|..] == b;
  }

  /** Every character `a` becomes `b`. */
  function ReplaceChar(s: string, a: char, b: char): (r: string)
    ensures |r| == |s|
    ensures forall i :: 0 <= i < |s| ==> r[i] == (if s[i] == a then b else s[i])
  {
    if |s| == 0 then "" else [if s[0] == a then b else s[0]] + ReplaceChar(s[1..], a, b)
  }

  lemma ReplaceCharAppend(u: string, v: string, a: char, b: char)
    ensures ReplaceChar(u + v, a, b) == ReplaceChar(u, a, b) + ReplaceChar(v, a, b)
  {
    assert forall i :: 0 <= i < |u + v| ==> ReplaceChar(u + v, a, b)[i] == (ReplaceChar(u, a, b) + ReplaceChar(v, a, b))[i];
  }

  lemma ReplaceCharAbsent(u: string, a: char, b: char)
    requires a !in u
    ensures ReplaceChar(u, a, b) == u
  {
    assert forall i :: 0 <= i < |u| ==> ReplaceChar(u, a, b)[i] == u[i];
  }

  /** Replacing a character that no item holds only changes the separators. */
  lemma {:induction false} ReplaceCharJoin(xs: seq<string>, sep: string, a: char, b: char)
    requires forall k :: 0 <= k < |xs| ==> a !in xs[k]
    ensures ReplaceChar(Join(xs, sep), a, b) == Join(xs, ReplaceChar(sep, a, b))
    decreases |xs|
  {
    if |xs| == 1 {
      ReplaceCharAbsent(xs[0], a, b);
    } else if |xs| > 1 {
      var rest := Join(xs[1..], sep);
      ReplaceCharJoin(xs[1..], sep, a, b);
      ReplaceCharAppend(xs[0] + sep, rest, a, b);
      ReplaceCharAppend(xs[0], sep, a, b);
      ReplaceCharAbsent(xs[0], a, b);
    }
  }

  /** The characters of `s` not in `drop`, in order. */
  function RemoveChars(s: string, drop: set<char>): (r: string)
    ensures |r| <= |s|
    ensures forall c :: c in r ==> c in s && c !in drop
  {
    if |s| == 0 then ""
    else (if s[0] in drop then "" else [s[0]]) + RemoveChars(s[1..], drop)
  }

  /** The characters of `s` that satisfy `keep`, in order. */
  function KeepChars(s: string, keep: char -> bool): (r: string)
    ensures |r| <= |s|
    ensures forall i :: 0 <= i < |r| ==> keep(r[i])
    ensures forall c :: c in r ==> c in s
  {
    if |s| == 0 then ""
    else (if keep(s[0]) then [s[0]] else "") + KeepChars(s[1..], keep)
  }

  /** Keeping every character of a string whose characters all pass changes nothing. */
  lemma {:induction false} KeepCharsAll(s: string, keep: char -> bool)
    requires forall i :: 0 <= i < |s| ==> keep(s[i])
    ensures KeepChars(s, keep) == s
    decreases |s|
  {
    if |s| > 0 {
      KeepCharsAll(s[1..], keep);
      assert [s[0]] + s[1..] == s;
    }
  }

  // ------------------------------------------------------------ numbers

  predicate AllDigits(s: string)
  {
    forall i :: 0 <= i < |s| ==> IsDigit(s[i])
  }

  /** `str.isdigit()` on ASCII text. */
  predicate IsDigits(s: string)
  {
    |s| > 0 && AllDigits(s)
  }

  /** `str.isalpha()` on ASCII text. */
  predicate IsAlpha(s: string)
  {
    |s| > 0 && forall i :: 0 <= i < |s| ==> IsLetter(s[i])
  }

  /** `int(s)` for a string of decimal digits. */
  function DigitsValue(s: string): (n: nat)
    requires AllDigits(s)
  {
    if |s| == 0 then 0
    else DigitsValue(s[..|s| - 1]) * 10 + (s[|s| - 1] as int - '0' as int)
  }

  /** `str(n)`: decimal digits without leading zeros. */
  function NatToString(n: nat): (s: string)
    ensures IsDigits(s)
    ensures |s| > 1 ==> s[0] != '0'
  {
    if n < 10 then [('0' as int + n) as char]
    else NatToString(n / 10) + [('0' as int + n % 10) as char]
  }

  lemma {:induction false} NatToStringRoundTrip(n: nat)
    ensures DigitsValue(NatToString(n)) == n
  {
    var s := NatToString(n);
    if n >= 10 {
      NatToStringRoundTrip(n / 10);
      assert s[..|s| - 1] == NatToString(n / 10);
    }
  }

  // ------------------------------------------------------------- slices

  /** Python's normalisation of a slice bound: negative counts from the end,
    * then the bound is clamped to `0..len`. */
  function SliceBound(i: int, len: nat): (r: nat)
    ensures r <= len
    ensures 0 <= i <= len ==> r == i
  {
    var j := if i < 0 then i + len else i;
    if j < 0 then 0 else if j > len then len else j
  }

  /** `xs[lo:hi]`. */
  function Slice<T>(xs: seq<T>, lo: int, hi: int): (r: seq<T>)
    ensures |r| <= |xs|
    ensures SliceBound(lo, |xs|) < SliceBound(hi, |xs|) ==> r == xs[SliceBound(lo, |xs|)..SliceBound(hi, |xs|)]
    ensures SliceBound(lo, |xs|) >= SliceBound(hi, |xs|) ==> r == []
  {
    var a := SliceBound(lo, |xs|);
    var b := SliceBound(hi, |xs|);
    if a < b then xs[a..b] else []
  }

  /** `xs[:n]`: the first `n` elements, or all but the last `-n` when `n` is negative. */
  function Take<T>(xs: seq<T>, n: int): (r: seq<T>)
    ensures |r| <= |xs| && r == xs[..|r|]
    ensures n >= 0 ==> |r| == if n < |xs| then n else |xs|
    ensures n < 0 ==> |r| == if -n < |xs| then |xs| + n else 0
  {
    Slice(xs, 0, n)
  }
}
