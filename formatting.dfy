/** Python's `str.format(**vars)` on templates made of literal text and named
  * replacement fields, and `re.findall(r'\{(\w+)\}', s)`, the way the email
  * code lists a template's fields. A template is also kept as a sequence of
  * pieces, whose `Source` text is what the program stores; rendering the text
  * is filling the pieces. */
module Formatting {
  import opened Wrappers
  import opened Text
  import Patterns

  // ------------------------------------------------------------ pieces

  /** A part of a template: literal text, or a `{name}` replacement field. */
  datatype Piece = Lit(text: string) | Field(name: string)

  datatype FormatError =
    | KeyError(key: string)   // a field whose name is not among the variables
    | Unsupported             // any other use of a brace (positional fields, specs, lone braces)

  /** A keyword field name: word characters, and not all digits (an all-digit
    * name is a positional index). */
  predicate IsName(n: string)
  {
    |n| > 0 && (forall i :: 0 <= i < |n| ==> IsWordChar(n[i])) && !AllDigits(n)
  }

  predicate WellFormed(ps: seq<Piece>)
  {
    forall p :: p in ps && p.Field? ==> IsName(p.name)
  }

  /** A literal brace is written twice. */
  function Escape(s: string): (r: string)
    ensures |r| >= |s|
    ensures '{' !in s && '}' !in s ==> r == s
  {
    if |s| == 0 then ""
    else (if s[0] == '{' || s[0] == '}' then [s[0], s[0]] else [s[0]]) + Escape(s[1..])
  }

  /** The template text of a sequence of pieces. */
  function Source(ps: seq<Piece>): string
  {
    if |ps| == 0 then ""
    else
      (match ps[0]
        case Lit(t) => Escape(t)
        case Field(n) => "{" + n + "}") + Source(ps[1..])
  }

  /** The field names, in order, with repeats. */
  function Fields(ps: seq<Piece>): (r: seq<string>)
    ensures |r| <= |ps|
  {
    if |ps| == 0 then []
    else (if ps[0].Field? then [ps[0].name] else []) + Fields(ps[1..])
  }

  /** A template written as text, field, text, ..., field, text. */
  function Interleave(texts: seq<string>, names: seq<string>): (r: seq<Piece>)
    requires |texts| == |names| + 1
    ensures |r| == |texts| + |names|
    ensures Fields(r) == names
    decreases |names|
  {
    if |names| == 0 then
      assert Fields([Lit(texts[0])]) == [] + Fields([]);
      [Lit(texts[0])]
    else
      var rest := Interleave(texts[1..], names[1..]);
      var r := [Lit(texts[0]), Field(names[0])] + rest;
      assert r[1..] == [Field(names[0])] + rest && r[1..][1..] == rest;
      assert names == [names[0]] + names[1..];
      r
  }

  /** An interleaved template whose field names are all keywords is well formed. */
  lemma {:induction false} InterleaveWellFormed(texts: seq<string>, names: seq<string>)
    requires |texts| == |names| + 1
    requires forall n :: n in names ==> IsName(n)
    ensures WellFormed(Interleave(texts, names))
    decreases |names|
  {
    if |names| > 0 {
      InterleaveWellFormed(texts[1..], names[1..]);
      var rest := Interleave(texts[1..], names[1..]);
      assert Interleave(texts, names) == [Lit(texts[0]), Field(names[0])] + rest;
    }
  }

  function Prepend(s: string, r: Result<string, FormatError>): Result<string, FormatError>
  {
    if r.Success? then Success(s + r.value) else r
  }

  /** Substitutes every field; the first field with no variable is the error. */
  function Fill(ps: seq<Piece>, vars: map<string, string>): (r: Result<string, FormatError>)
  {
    if |ps| == 0 then Success("")
    else match ps[0]
      case Lit(t) => Prepend(t, Fill(ps[1..], vars))
      case Field(n) => if n in vars then Prepend(vars[n], Fill(ps[1..], vars)) else Failure(KeyError(n))
  }

  /** Filling succeeds exactly when every field has a variable; otherwise it
    * names a field that has none. */
  lemma {:induction false} FillIff(ps: seq<Piece>, vars: map<string, string>)
    ensures Fill(ps, vars).Success? <==> forall n :: n in Fields(ps) ==> n in vars
    ensures Fill(ps, vars).Failure? ==>
              Fill(ps, vars).error.KeyError? && Fill(ps, vars).error.key in Fields(ps) && Fill(ps, vars).error.key !in vars
  {
    if |ps| > 0 {
      FillIff(ps[1..], vars);
      assert Fields(ps) == (if ps[0].Field? then [ps[0].name] else []) + Fields(ps[1..]);
    }
  }

  /** Filling only depends on the variables the fields name. */
  lemma {:induction false} FillAgrees(ps: seq<Piece>, v: map<string, string>, w: map<string, string>)
    requires forall n :: n in Fields(ps) ==> (n in v <==> n in w) && (n in v ==> v[n] == w[n])
    ensures Fill(ps, v) == Fill(ps, w)
  {
    if |ps| > 0 {
      assert Fields(ps) == (if ps[0].Field? then [ps[0].name] else []) + Fields(ps[1..]);
      FillAgrees(ps[1..], v, w);
    }
  }

  // ------------------------------------------------------ template text

  /** The character that ends a bare field's name. */
  function ClosingBrace(): (ends: set<char>)
    ensures forall c :: c in ends <==> c == '}'
  {
    {'}'}
  }

  /** The characters that may end a field's name: the closing brace, or the
    * start of a conversion, a format spec, an attribute or an index. */
  function NameEnds(): (ends: set<char>)
    ensures forall c :: c in ends <==> c == '}' || c == '!' || c == ':' || c == '.' || c == '['
  {
    {'}', '!', ':', '.', '['}
  }

  /** The length of the leading run of word characters. */
  function WordRun(s: string): (k: nat)
    ensures k <= |s|
    ensures forall i :: 0 <= i < k ==> IsWordChar(s[i])
    ensures k < |s| ==> !IsWordChar(s[k])
  {
    if |s| > 0 && IsWordChar(s[0]) then 1 + WordRun(s[1..]) else 0
  }

  /** A field named `n` opens at `i`: a brace, a run of word characters,
    * then one of `ends`. */
  predicate FieldAt(s: string, i: nat, n: string, ends: set<char>)
  {
    |n| > 0 && i + |n| + 2 <= |s| && s[i] == '{' && s[i + 1..i + 1 + |n|] == n && s[i + 1 + |n|] in ends
      && forall j :: 0 <= j < |n| ==> IsWordChar(n[j])
  }

  /** The name of the field opening `s`, if there is one. */
  function FieldHere(s: string, ends: set<char>): (r: Option<string>)
    requires |s| > 0
    requires forall c :: c in ends ==> !IsWordChar(c)
    ensures r.Some? ==> FieldAt(s, 0, r.value, ends)
    ensures r.None? ==> forall n :: !FieldAt(s, 0, n, ends)
  {
    if s[0] != '{' then None
    else
      var k := WordRun(s[1..]);
      FieldRuns(s, ends);
      if k > 0 && 1 + k < |s| && s[1 + k] in ends then
        assert s[1..][..k] == s[1..1 + k];
        Some(s[1..1 + k])
      else
        None
  }

  /** A field at the start spans exactly the run of word characters after
    * its opening brace. */
  lemma FieldRuns(s: string, ends: set<char>)
    requires |s| > 0
    requires forall c :: c in ends ==> !IsWordChar(c)
    ensures forall n :: FieldAt(s, 0, n, ends) ==> WordRun(s[1..]) == |n|
  {
    forall n | FieldAt(s, 0, n, ends)
      ensures WordRun(s[1..]) == |n|
    {
      assert s[1..] == n + [s[1 + |n|]] + s[2 + |n|..];
      WordRunOf(n, s[1 + |n|], s[2 + |n|..]);
    }
  }

  /** `!c` is one character, followed by `:` or by the end of the field. */
  predicate ConversionOk(t: string)
  {
    var j := Patterns.RunEnd(t, 0, NotConversionOrSpec);
    j < |t| && t[j] == '!' ==> j + 1 < |t| && (j + 2 == |t| || t[j + 2] == ':')
  }

  predicate NotConversionOrSpec(c: char) { c != '!' && c != ':' }

  /** A field with a conversion, format spec, attribute or index and no brace
    * inside it: its name. */
  function SpecHere(s: string): (r: Option<string>)
    requires |s| > 0
    ensures r.Some? ==> FieldAt(s, 0, r.value, NameEnds()) && IsName(r.value) && s[|r.value| + 1] != '}'
  {
    match FieldHere(s, NameEnds())
    case None => None
    case Some(n) =>
      var k := |n| + 1;
      if s[k] == '}' || !IsName(n) || '}' !in s[k..] then None
      else
        var t := s[k..k + IndexOf(s[k..], '}')];
        if '{' in t || !ConversionOk(t) then None else Some(n)
  }

  /** The first unit `str.format` reads: literal characters (`{{` and `}}`
    * count as one brace), a bare named field, a named field with a
    * conversion, spec, attribute or index, or anything else with a brace. */
  datatype Token = Chars(text: string, width: nat) | Named(name: string) | Spec(name: string) | Bad

  function TokenAt(s: string): (t: Token)
    requires |s| > 0
    ensures t.Chars? ==> 1 <= t.width <= |s| && FieldHere(s, ClosingBrace()).None?
    ensures t.Named? ==> FieldHere(s, ClosingBrace()) == Some(t.name) && IsName(t.name)
    ensures t.Spec? ==> FieldAt(s, 0, t.name, NameEnds()) && IsName(t.name)
  {
    if s[0] == '{' then
      if |s| >= 2 && s[1] == '{' then Chars("{", 2)
      else
        var f := FieldHere(s, ClosingBrace());
        if f.Some? && IsName(f.value) then Named(f.value)
        else match SpecHere(s)
          case Some(n) => Spec(n)
          case None => Bad
    else if s[0] == '}' then
      if |s| >= 2 && s[1] == '}' then Chars("}", 2) else Bad
    else Chars([s[0]], 1)
  }

  /** `s.format(**vars)`: literal text is copied, `{{` and `}}` stand for
    * one brace, and `{name}` is replaced by the variable `name`. A field
    * whose name has no variable raises `KeyError(name)`, whatever follows
    * the name; the conversions, format specs, attributes and indexes of
    * supplied names are not modelled. Text is read left to right, so the
    * first problem is the one raised. */
  function Format(s: string, vars: map<string, string>): (r: Result<string, FormatError>)
    decreases |s|
  {
    if |s| == 0 then Success("")
    else match TokenAt(s)
      case Chars(c, w) => Prepend(c, Format(s[w..], vars))
      case Named(n) =>
        if n in vars then Prepend(vars[n], Format(s[|n| + 2..], vars)) else Failure(KeyError(n))
      case Spec(n) => if n in vars then Failure(Unsupported) else Failure(KeyError(n))
      case Bad => Failure(Unsupported)
  }

  /** `re.findall(r'\{(\w+)\}', s)` (with `ClosingBrace()`), or with any of
    * `NameEnds()` after the name: the names of the fields, left to right,
    * without overlaps. */
  function FindFields(s: string, ends: set<char>): (r: seq<string>)
    requires forall c :: c in ends ==> !IsWordChar(c)
    decreases |s|
  {
    if |s| == 0 then []
    else match FieldHere(s, ends)
      case Some(n) => [n] + FindFields(s[|n| + 2..], ends)
      case None => FindFields(s[1..], ends)
  }

  lemma PrependPrepend(a: string, b: string, r: Result<string, FormatError>)
    ensures Prepend(a, Prepend(b, r)) == Prepend(a + b, r)
  {
    if r.Success? {
      assert a + (b + r.value) == (a + b) + r.value;
    }
  }

  /** The run of word characters before a character that is not one is the whole name. */
  lemma {:induction false} WordRunOf(n: string, c: char, rest: string)
    requires forall i :: 0 <= i < |n| ==> IsWordChar(n[i])
    requires !IsWordChar(c)
    ensures WordRun(n + [c] + rest) == |n|
    decreases |n|
  {
    var s := n + [c] + rest;
    if |n| == 0 {
      assert s[0] == c;
    } else {
      assert s[0] == n[0];
      assert s[1..] == n[1..] + [c] + rest;
      WordRunOf(n[1..], c, rest);
    }
  }

  /** Escaped text starts with one literal character. */
  lemma EscapedToken(t: string, rest: string) returns (w: nat)
    requires |t| > 0
    ensures var s := Escape(t) + rest;
      |s| > 0 && TokenAt(s) == Chars([t[0]], w) && s[w..] == Escape(t[1..]) + rest
  {
    var head := if t[0] == '{' || t[0] == '}' then [t[0], t[0]] else [t[0]];
    var s := Escape(t) + rest;
    assert s == head + (Escape(t[1..]) + rest);
    w := |head|;
    assert s[w..] == Escape(t[1..]) + rest;
    assert s[0] == t[0];
    if t[0] == '{' {
      assert s[1] == '{';
    } else if t[0] == '}' {
      assert s[1] == '}';
    }
  }

  /** Escaped literal text comes out as it was. */
  lemma {:induction false} FormatEscaped(t: string, rest: string, vars: map<string, string>)
    ensures Format(Escape(t) + rest, vars) == Prepend(t, Format(rest, vars))
    decreases |t|
  {
    if |t| == 0 {
      assert Escape(t) + rest == rest;
      if Format(rest, vars).Success? {
        assert "" + Format(rest, vars).value == Format(rest, vars).value;
      }
    } else {
      var w := EscapedToken(t, rest);
      FormatEscaped(t[1..], rest, vars);
      PrependPrepend([t[0]], t[1..], Format(rest, vars));
      assert [t[0]] + t[1..] == t;
    }
  }

  /** A replacement field in the text is looked up by its name. */
  lemma FormatField(n: string, rest: string, vars: map<string, string>)
    requires IsName(n)
    ensures Format("{" + n + "}" + rest, vars)
         == if n in vars then Prepend(vars[n], Format(rest, vars)) else Failure(KeyError(n))
  {
    var s := "{" + n + "}" + rest;
    assert s[1] == n[0] && IsWordChar(n[0]);
    assert s[1..1 + |n|] == n;
    assert FieldAt(s, 0, n, ClosingBrace());
    FieldAtUnique(s, n, FieldHere(s, ClosingBrace()).value, ClosingBrace(), ClosingBrace());
    assert s[|n| + 2..] == rest;
  }

  /** At most one field starts at a given place. */
  lemma FieldAtUnique(s: string, n: string, m: string, ends: set<char>, ends': set<char>)
    requires forall c :: c in ends + ends' ==> !IsWordChar(c)
    requires FieldAt(s, 0, n, ends) && FieldAt(s, 0, m, ends')
    ensures n == m
  {
    assert s[1..] == n + [s[1 + |n|]] + s[2 + |n|..];
    WordRunOf(n, s[1 + |n|], s[2 + |n|..]);
    assert s[1..] == m + [s[1 + |m|]] + s[2 + |m|..];
    WordRunOf(m, s[1 + |m|], s[2 + |m|..]);
  }

  /** Formatting the text of well-formed pieces is filling them: the stored
    * template renders to the same text, or fails on the same missing field. */
  lemma {:induction false} FormatSource(ps: seq<Piece>, vars: map<string, string>)
    requires WellFormed(ps)
    ensures Format(Source(ps), vars) == Fill(ps, vars)
    decreases |ps|
  {
    if |ps| == 0 {
    } else {
      assert forall p :: p in ps[1..] ==> p in ps;
      FormatSource(ps[1..], vars);
      var rest := Source(ps[1..]);
      match ps[0]
      case Lit(t) =>
        FormatEscaped(t, rest, vars);
      case Field(n) =>
        assert ps[0] in ps;
        assert Source(ps) == "{" + n + "}" + rest;
        FormatField(n, rest, vars);
    }
  }

  // -------------------------------------------- listing a text's fields

  lemma FieldAtLift(s: string, d: nat, j: nat, i: nat, n: string, ends: set<char>)
    requires d <= |s| && i == d + j && FieldAt(s[d..], j, n, ends)
    ensures FieldAt(s, i, n, ends)
  {
    assert s[d..][j + 1..j + 1 + |n|] == s[d + j + 1..d + j + 1 + |n|];
  }

  lemma FieldAtDrop(s: string, d: nat, i: nat, n: string, ends: set<char>)
    requires FieldAt(s, i, n, ends) && d <= i
    ensures FieldAt(s[d..], i - d, n, ends)
  {
    assert s[d..][i - d + 1..i - d + 1 + |n|] == s[i + 1..i + 1 + |n|];
  }

  /** One step of `Format` towards the field it fails on: either that field
    * opens the text, or the same failure comes from the rest after the first
    * token. */
  lemma KeyStep(s: string, vars: map<string, string>, key: string) returns (w: nat)
    requires Format(s, vars) == Failure(KeyError(key))
    ensures w <= |s|
    ensures w == 0 ==> FieldAt(s, 0, key, NameEnds()) && key !in vars
    ensures w > 0 ==> Format(s[w..], vars) == Failure(KeyError(key))
  {
    match TokenAt(s)
    case Chars(c, width) =>
      assert Format(s, vars) == Prepend(c, Format(s[width..], vars));
      w := width;
    case Named(n) =>
      if n in vars {
        w := |n| + 2;
        assert Format(s, vars) == Prepend(vars[n], Format(s[w..], vars));
      } else {
        assert key == n && FieldAt(s, 0, n, ClosingBrace());
        w := 0;
      }
    case Spec(n) =>
      w := 0;
    case Bad =>
      assert false;
  }

  /** Every key `Format` fails on opens a field of the text. */
  lemma {:induction false} FormatKeyAt(s: string, vars: map<string, string>, key: string) returns (i: nat)
    requires Format(s, vars) == Failure(KeyError(key))
    ensures FieldAt(s, i, key, NameEnds())
    ensures key !in vars
    decreases |s|
  {
    var w := KeyStep(s, vars, key);
    if w == 0 {
      i := 0;
    } else {
      var j := FormatKeyAt(s[w..], vars, key);
      i := w + j;
      FieldAtLift(s, w, j, i, key, NameEnds());
    }
  }

  /** `findall` reports every field of the text that it looks for. */
  lemma {:induction false} FieldFound(s: string, i: nat, n: string, ends: set<char>)
    requires forall c :: c in ends ==> !IsWordChar(c) && c != '{'
    requires FieldAt(s, i, n, ends)
    ensures n in FindFields(s, ends)
    decreases |s|
  {
    match FieldHere(s, ends)
    case Some(m) =>
      if i == 0 {
        FieldAtUnique(s, n, m, ends, ends);
      } else {
        // the match holds no other opening brace, so `i` lies past it
        assert i >= |m| + 2 by {
          if i < |m| + 2 {
            assert false;
          }
        }
        FieldAtDrop(s, |m| + 2, i, n, ends);
        FieldFound(s[|m| + 2..], i - (|m| + 2), n, ends);
      }
    case None =>
      assert i != 0;
      FieldAtDrop(s, 1, i, n, ends);
      FieldFound(s[1..], i - 1, n, ends);
  }

  /** A key `Format` misses is among the names that `findall` lists when it
    * accepts any of `NameEnds()` after the name, and has no variable. */
  lemma MissingKeyListed(s: string, vars: map<string, string>)
    requires Format(s, vars).Failure? && Format(s, vars).error.KeyError?
    ensures Format(s, vars).error.key in FindFields(s, NameEnds())
    ensures Format(s, vars).error.key !in vars
  {
    var key := Format(s, vars).error.key;
    var i := FormatKeyAt(s, vars, key);
    FieldFound(s, i, key, NameEnds());
  }

  // ------------------------------------------ a field with a format spec

  /** A field with a conversion or spec after its name and no brace inside:
    * `\{(\w+)\}` misses it, the scan that accepts `NameEnds()` lists it. */
  lemma SpecFieldScans(n: string, c: char, t: string)
    requires IsName(n) && c in NameEnds() && c != '}'
    requires '{' !in t
    ensures FindFields("{" + n + [c] + t, ClosingBrace()) == []
    ensures FindFields("{" + n + [c] + t, NameEnds()) == [n]
  {
    SpecMissedAsWritten(n, c, t);
    SpecListed(n, c, t);
  }

  lemma SpecMissedAsWritten(n: string, c: char, t: string)
    requires IsName(n) && c in NameEnds() && c != '}'
    requires '{' !in t
    ensures FindFields("{" + n + [c] + t, ClosingBrace()) == []
  {
    var s := "{" + n + [c] + t;
    SpecWord(n, c, t);
    assert s[1..] == n + [c] + t;
    assert '{' !in n;
    NoBraceNoFields(s[1..], ClosingBrace());
  }

  lemma SpecListed(n: string, c: char, t: string)
    requires IsName(n) && c in NameEnds()
    requires '{' !in t
    ensures FindFields("{" + n + [c] + t, NameEnds()) == [n]
  {
    var s := "{" + n + [c] + t;
    SpecWord(n, c, t);
    assert s[1..1 + |n|] == n;
    assert s[|n| + 2..] == t;
    NoBraceNoFields(t, NameEnds());
  }

  lemma SpecWord(n: string, c: char, t: string)
    requires IsName(n) && c in NameEnds()
    ensures WordRun(("{" + n + [c] + t)[1..]) == |n|
  {
    assert ("{" + n + [c] + t)[1..] == n + [c] + t;
    WordRunOf(n, c, t);
  }

  /** Formatting a field with a conversion or spec whose name has no variable
    * raises `KeyError` with that name. */
  lemma SpecFieldMissing(n: string, c: char, t: string, rest: string, vars: map<string, string>)
    requires IsName(n) && c in NameEnds() && c != '}'
    requires '{' !in t && '}' !in t && ConversionOk([c] + t)
    requires n !in vars
    ensures Format("{" + n + [c] + t + "}" + rest, vars) == Failure(KeyError(n))
  {
    var s := "{" + n + [c] + t + "}" + rest;
    SpecFieldShape(n, c, t, rest);
    SpecToken(s, n, [c] + t);
    FormatSpecToken(s, n, vars);
  }

  /** The text of such a field, position by position. */
  lemma SpecFieldShape(n: string, c: char, t: string, rest: string)
    requires IsName(n) && c in NameEnds() && c != '}' && '}' !in t
    ensures var s := "{" + n + [c] + t + "}" + rest;
      |s| > 0 && FieldHere(s, NameEnds()) == Some(n) && FieldHere(s, ClosingBrace()).None? &&
      s[|n| + 1] == c && '}' in s[|n| + 1..] && IndexOf(s[|n| + 1..], '}') == |t| + 1 &&
      s[|n| + 1..|n| + 1 + (|t| + 1)] == [c] + t
  {
    var s := "{" + n + [c] + t + "}" + rest;
    SpecWord(n, c, t + "}" + rest);
    assert "{" + n + [c] + (t + "}" + rest) == s;
    assert s[1..1 + |n|] == n;
    var k := |n| + 1;
    assert s[k..] == [c] + t + "}" + rest;
    IndexOfBefore([c] + t, '}', rest);
  }

  lemma SpecToken(s: string, n: string, t: string)
    requires |s| > 0 && FieldHere(s, NameEnds()) == Some(n) && FieldHere(s, ClosingBrace()).None? && IsName(n)
    requires s[|n| + 1] != '}' && '}' in s[|n| + 1..] && t == s[|n| + 1..|n| + 1 + IndexOf(s[|n| + 1..], '}')]
    requires '{' !in t && ConversionOk(t)
    ensures TokenAt(s) == Spec(n)
  {
    assert SpecHere(s) == Some(n);
  }

  lemma FormatSpecToken(s: string, n: string, vars: map<string, string>)
    requires |s| > 0 && TokenAt(s) == Spec(n) && n !in vars
    ensures Format(s, vars) == Failure(KeyError(n))
  {
  }

  lemma IndexOfBefore(a: string, c: char, rest: string)
    requires c !in a
    ensures c in a + [c] + rest && IndexOf(a + [c] + rest, c) == |a|
  {
    var s := a + [c] + rest;
    assert s[|a|] == c;
    assert s[..|a|] == a;
  }

  /** Text without an opening brace holds no field. */
  lemma {:induction false} NoBraceNoFields(s: string, ends: set<char>)
    requires forall c :: c in ends ==> !IsWordChar(c)
    requires '{' !in s
    ensures FindFields(s, ends) == []
    decreases |s|
  {
    if |s| > 0 {
      NoBraceNoFields(s[1..], ends);
    }
  }
}
