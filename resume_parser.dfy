/** The text extractors of `resume_parser.py`: cleaning, phone, LinkedIn URL,
  * name, years of experience, experience summary, education and skills, and
  * the assembly of a parsed candidate from them. */
module ResumeParser {
  import opened Wrappers
  import opened Text
  import opened Seqs
  import opened Patterns
  import LinkedIn

  // ---------------------------------------------------------- clean_text

  /** No two `c` side by side. */
  predicate NoRun(s: string, c: char)
  {
    forall i :: 0 <= i < |s| - 1 ==> !(s[i] == c && s[i + 1] == c)
  }

  /** `re.sub(c + '+', c, s)`: every run of `c` becomes a single `c`. */
  function Squash(s: string, c: char): (r: string)
    ensures |r| <= |s|
    ensures |s| > 0 ==> |r| > 0 && r[0] == s[0] && r[|r| - 1] == s[|s| - 1]
    ensures NoRun(r, c)
    ensures forall d :: d != c && NoRun(s, d) ==> NoRun(r, d)
    ensures NoRun(s, c) ==> r == s
  {
    if |s| <= 1 then s
    else
      var rest := Squash(s[1..], c);
      if s[0] == c && s[1] == c then rest
      else
        assert rest[0] == s[1];
        assert forall d :: NoRun(s, d) ==> NoRun(s[1..], d);
        [s[0]] + rest
  }

  /** `clean_text`: runs of newlines, then runs of spaces, become one, and
    * the result is stripped. */
  function CleanText(text: string): (r: string)
    ensures NoRun(r, '\n') && NoRun(r, ' ')
    ensures IsStripped(r)
  {
    var s := Squash(Squash(text, '\n'), ' ');
    var r := Strip(s);
    StripSlice(s);
    r
  }

  /** The strip of `s` is a piece of `s`, so it keeps `NoRun`. */
  lemma StripSlice(s: string)
    ensures forall c :: NoRun(s, c) ==> NoRun(Strip(s), c)
  {
    var r := Strip(s);
    forall c | NoRun(s, c)
      ensures NoRun(r, c)
    {
      forall i | 0 <= i < |r| - 1
        ensures !(r[i] == c && r[i + 1] == c)
      {
        StripAt(s, i);
        StripAt(s, i + 1);
      }
    }
  }

  /** Cleaning cleaned text changes nothing. */
  lemma CleanTextIdempotent(text: string)
    ensures CleanText(CleanText(text)) == CleanText(text)
  {
    var t := CleanText(text);
    assert Squash(t, '\n') == t;
    assert Squash(t, ' ') == t;
    StripOfStripped(t);
  }

  // ------------------------------------------------------- extract_phone

  /** "(AAA) PPP-NNNN". */
  function PhoneFormat(g: (string, string, string)): string
  {
    "(" + g.0 + ") " + g.1 + "-" + g.2
  }

  /** The shape of a formatted phone number. */
  predicate IsFormattedPhone(r: string)
  {
    |r| == 14 && r[0] == '(' && DigitsAt(r, 1, 3) && r[4] == ')' && r[5] == ' ' &&
    DigitsAt(r, 6, 3) && r[9] == '-' && DigitsAt(r, 10, 4)
  }

  lemma FormatShape(g: (string, string, string))
    requires PhoneGroups(g)
    ensures IsFormattedPhone(PhoneFormat(g))
    ensures PhoneFormat(g)[1..4] == g.0 && PhoneFormat(g)[6..9] == g.1 && PhoneFormat(g)[10..] == g.2
  {
    var r := PhoneFormat(g);
    assert r == "(" + g.0 + ") " + g.1 + "-" + g.2;
    assert r[4] == ')' && r[5] == ' ';
  }

  /** `extract_phone`: the groups of the first phone number, formatted. */
  function ExtractPhone(text: string): (r: string)
    ensures r == "" <==> SearchPhone(text).None?
    ensures r != "" ==> IsFormattedPhone(r)
  {
    match SearchPhone(text)
    case None => ""
    case Some(g) =>
      FormatShape(g);
      PhoneFormat(g)
  }

  /** A formatted number is found again, whole, at its first character. */
  lemma PhoneAtFormatted(r: string)
    requires IsFormattedPhone(r)
    ensures PhoneAt(r, 0) == Some((r[1..4], r[6..9], r[10..14]))
  {
    var a := r[1..4];
    assert PhoneArea(r, 1) == PhoneAfterArea(r, a, 4);
    assert PhoneExchange(r, a, 6) == PhoneAfterExchange(r, a, r[6..9], 9);
  }

  /** Extracting the phone from its own formatted text gives it back. */
  lemma ExtractPhoneFormatted(r: string)
    requires IsFormattedPhone(r)
    ensures ExtractPhone(r) == r
  {
    PhoneAtFormatted(r);
    var g := (r[1..4], r[6..9], r[10..14]);
    assert SearchPhone(r) == Some(g);
    var f := PhoneFormat(g);
    FormatShape(g);
    assert forall i :: 0 <= i < 14 ==> f[i] == r[i];
  }

  // ---------------------------------------------------- extract_linkedin

  /** `extract_linkedin`: the first LinkedIn URL in the text, with "https://"
    * in front unless it starts with "http" (case-sensitive). */
  function ExtractLinkedIn(text: string): (r: string)
    ensures r == "" <==> SearchLinkedIn(text).None?
    ensures r != "" ==> StartsWith(r, "http") && EndsWith(r, SearchLinkedIn(text).value)
    ensures r != "" && StartsWith(SearchLinkedIn(text).value, "http") ==> r == SearchLinkedIn(text).value
  {
    match SearchLinkedIn(text)
    case None => ""
    case Some(url) =>
      if StartsWith(url, "http") then url
      else
        HttpsPrefix(url);
        "https://" + url
  }

  lemma HttpsPrefix(url: string)
    ensures StartsWith("https://" + url, "http") && EndsWith("https://" + url, url)
  {
    var u := "https://" + url;
    assert u[..4] == "https://"[..4] == "http";
  }

  /** The search finds a canonical profile URL whole. */
  lemma SearchCanonical(h: string)
    requires |h| > 0 && forall i :: 0 <= i < |h| ==> IsHandleChar(h[i])
    ensures SearchLinkedIn(LinkedIn.CanonicalPrefix + h) == Some(LinkedIn.CanonicalPrefix + h)
  {
    var s := LinkedIn.CanonicalPrefix + h;
    LinkedIn.CanonicalMatches(h);
    LinkedIn.CanonicalHandle(h);
    assert LinkedInAt(s, 0) == Some(|s|);
    assert s[0..|s|] == s;
  }

  /** A canonical profile URL starts with "http". */
  lemma CanonicalHttp(h: string)
    ensures StartsWith(LinkedIn.CanonicalPrefix + h, "http")
  {
    LinkedIn.Pieces("https://", "www.", "linkedin.com", "/in/", h);
    assert "https://"[..4] == "http";
  }

  /** A canonical profile URL is extracted whole, and it is a valid one. */
  lemma ExtractCanonical(h: string)
    requires |h| > 0 && forall i :: 0 <= i < |h| ==> IsHandleChar(h[i])
    ensures ExtractLinkedIn(LinkedIn.CanonicalPrefix + h) == LinkedIn.CanonicalPrefix + h
    ensures LinkedIn.IsValid(ExtractLinkedIn(LinkedIn.CanonicalPrefix + h)) == Some(true)
  {
    SearchCanonical(h);
    CanonicalHttp(h);
    LinkedIn.CanonicalValid(h);
  }

  // ---------------------------------------------------------- extract_name

  /** Lines mentioning any of these are not taken for the name. */
  const NameStopWords := ["email", "phone", "linkedin", "address"]

  /** `any(w in s for w in words)`. */
  predicate MentionsAny(s: string, words: seq<string>)
  {
    |words| > 0 && (Contains(s, words[0]) || MentionsAny(s, words[1..]))
  }

  lemma {:induction false} MentionsAnyIff(s: string, words: seq<string>)
    ensures MentionsAny(s, words) <==> exists w :: w in words && Contains(s, w)
  {
    if |words| > 0 {
      MentionsAnyIff(s, words[1..]);
      if Contains(s, words[0]) {
        assert words[0] in words;
      } else if MentionsAny(s, words[1..]) {
        var w :| w in words[1..] && Contains(s, w);
        assert w in words;
      } else {
        forall w | w in words
          ensures !Contains(s, w)
        {
          if w != words[0] {
            assert w in words[1..];
          }
        }
      }
    }
  }

  /** `[A-Za-z][a-z]*`. */
  predicate NameToken(w: string)
  {
    |w| > 0 && IsLetter(w[0]) && forall i :: 1 <= i < |w| ==> IsLower(w[i])
  }

  /** `^[A-Za-z][a-z]*\s+[A-Za-z][a-z]*(?:\s+[A-Za-z][a-z]*)?$` on a stripped
    * line: two or three such words separated by whitespace. */
  predicate WholeLineName(line: string)
  {
    IsStripped(line) && var ws := SplitWs(line); 2 <= |ws| <= 3 && forall w :: w in ws ==> NameToken(w)
  }

  /** `[A-Z][a-z]+` at `i`: the end of the word, which is a maximal run. */
  function CapWordAt(s: string, i: nat): (r: Option<nat>)
    ensures r.Some? ==> i + 2 <= r.value <= |s| && IsUpper(s[i])
    ensures r.Some? ==> forall k :: i < k < r.value ==> IsLower(s[k])
    ensures r.Some? ==> r.value == |s| || !IsLower(s[r.value])
  {
    if i < |s| && IsUpper(s[i]) then
      var e := RunEnd(s, i + 1, IsLower);
      if e > i + 1 then Some(e) else None
    else None
  }

  /** `^([A-Z][a-z]+ [A-Z][a-z]+)`: the end of the group. */
  function TwoCapWords(s: string): (r: Option<nat>)
    ensures r.Some? ==> r.value <= |s|
  {
    match CapWordAt(s, 0)
    case None => None
    case Some(e) => if e < |s| && s[e] == ' ' then CapWordAt(s, e + 1) else None
  }

  /** `^([A-Z][a-z]+ [A-Z]\. [A-Z][a-z]+)`: the end of the group. */
  function InitialledName(s: string): (r: Option<nat>)
    ensures r.Some? ==> r.value <= |s|
  {
    match CapWordAt(s, 0)
    case None => None
    case Some(e) =>
      if e + 3 < |s| && s[e] == ' ' && IsUpper(s[e + 1]) && s[e + 2] == '.' && s[e + 3] == ' '
      then CapWordAt(s, e + 4) else None
  }

  /** `^([A-Z][a-z]+ [A-Z][a-z]+ [A-Z][a-z]+)`: the end of the group. */
  function ThreeCapWords(s: string): (r: Option<nat>)
    ensures r.Some? ==> r.value <= |s|
  {
    match CapWordAt(s, 0)
    case None => None
    case Some(e1) =>
      if e1 < |s| && s[e1] == ' ' then
        match CapWordAt(s, e1 + 1)
        case None => None
        case Some(e2) => if e2 < |s| && s[e2] == ' ' then CapWordAt(s, e2 + 1) else None
      else None
  }

  /** The group of the first name pattern that matches, in the order the
    * code tries them: two words, initialled, three words. */
  function PatternNameAsWritten(line: string): Option<string>
  {
    if TwoCapWords(line).Some? then Some(line[..TwoCapWords(line).value])
    else if InitialledName(line).Some? then Some(line[..InitialledName(line).value])
    else if ThreeCapWords(line).Some? then Some(line[..ThreeCapWords(line).value])
    else None
  }

  /** As written, the three-word pattern never decides: wherever it matches,
    * the two-word pattern matched first and cut the name after two words. */
  lemma ThreeWordsShadowed(line: string)
    requires ThreeCapWords(line).Some?
    ensures TwoCapWords(line).Some? && TwoCapWords(line).value < ThreeCapWords(line).value
    ensures PatternNameAsWritten(line) == Some(line[..TwoCapWords(line).value])
  {
  }

  /** The name patterns with the three-word one tried first. */
  function PatternName(line: string): (r: Option<string>)
    ensures r.Some? ==> StartsWith(line, r.value)
  {
    if ThreeCapWords(line).Some? then Some(line[..ThreeCapWords(line).value])
    else if TwoCapWords(line).Some? then Some(line[..TwoCapWords(line).value])
    else if InitialledName(line).Some? then Some(line[..InitialledName(line).value])
    else None
  }

  /** The corrected order returns the longest group any of the three
    * patterns captures. */
  lemma PatternNameLongest(line: string)
    ensures TwoCapWords(line).Some? ==> PatternName(line).Some? && TwoCapWords(line).value <= |PatternName(line).value|
    ensures ThreeCapWords(line).Some? ==> PatternName(line) == Some(line[..ThreeCapWords(line).value])
    ensures InitialledName(line).Some? ==> PatternName(line) == Some(line[..InitialledName(line).value])
  {
  }

  /** A line the name search looks at: not empty, none of the `stops`. */
  predicate NameCandidate(line: string, stops: seq<string>)
  {
    line != "" && !MentionsAny(Lower(line), stops)
  }

  /** The name patterns in the code's order (`asWritten`) or in the
    * corrected one. */
  function NamePattern(line: string, asWritten: bool): (r: Option<string>)
    ensures r.Some? ==> StartsWith(line, r.value)
  {
    if asWritten then PatternNameAsWritten(line) else PatternName(line)
  }

  /** The name found in `lines`: the first candidate line that is a name as a
    * whole, or whose start matches a name pattern. */
  function NameIn(lines: seq<string>, stops: seq<string>, asWritten: bool): (r: string)
    ensures r != "" ==> exists i :: 0 <= i < |lines| && NameCandidate(Strip(lines[i]), stops) && StartsWith(Strip(lines[i]), r)
  {
    if |lines| == 0 then ""
    else
      var line := Strip(lines[0]);
      var rest := NameIn(lines[1..], stops, asWritten);
      assert forall i :: 1 <= i < |lines| ==> lines[i] == lines[1..][i - 1];
      if NameCandidate(line, stops) && WholeLineName(line) then
        assert StartsWith(line, line);
        line
      else if NameCandidate(line, stops) && NamePattern(line, asWritten).Some? then NamePattern(line, asWritten).value
      else rest
  }

  /** `extract_name` with the three-word pattern tried first: only the first
    * five lines are looked at. */
  method ExtractName(text: string) returns (name: string)
    ensures name == NameIn(Take(Split(text, '\n'), 5), NameStopWords, false)
  {
    name := FirstName(Take(Split(text, '\n'), 5), NameStopWords, false);
  }

  /** `extract_name` as the code has it: two words, initialled, three words. */
  method ExtractNameAsWritten(text: string) returns (name: string)
    ensures name == NameIn(Take(Split(text, '\n'), 5), NameStopWords, true)
  {
    name := FirstName(Take(Split(text, '\n'), 5), NameStopWords, true);
  }

  /** `[A-Z][a-z]+` as a whole word. */
  predicate CapWord(w: string)
  {
    |w| >= 2 && IsUpper(w[0]) && forall k :: 1 <= k < |w| ==> IsLower(w[k])
  }

  /** A capitalised word at `i` that no lower-case letter follows is what
    * `[A-Z][a-z]+` matches there. */
  lemma CapWordMatch(s: string, i: nat, w: string)
    requires CapWord(w) && i + |w| <= |s| && s[i..i + |w|] == w
    requires i + |w| == |s| || !IsLower(s[i + |w|])
    ensures CapWordAt(s, i) == Some(i + |w|)
  {
    assert s[i] == w[0];
    forall k | i + 1 <= k < i + |w|
      ensures IsLower(s[k])
    {
      assert s[k] == w[k - i];
    }
    RunEndExact(s, i + 1, i + |w|, IsLower);
  }

  /** Three capitalised words followed by anything but a lower-case letter:
    * the code's order cuts the name after two words, the corrected order
    * keeps all three. */
  lemma PatternOrderCut(a: string, b: string, c: string, rest: string)
    requires CapWord(a) && CapWord(b) && CapWord(c)
    requires rest == "" || !IsLower(rest[0])
    ensures var line := a + " " + b + " " + c + rest;
            PatternNameAsWritten(line) == Some(a + " " + b) && PatternName(line) == Some(a + " " + b + " " + c)
  {
    var line := a + " " + b + " " + c + rest;
    ThreeWordSlices(line, a, b, c, rest);
    ThreeWordEnds(line, a, b, c);
  }

  /** Where the words and spaces of a + " " + b + " " + c + rest lie. */
  lemma ThreeWordSlices(line: string, a: string, b: string, c: string, rest: string)
    requires line == a + " " + b + " " + c + rest
    ensures var e1, e2, e3 := |a|, |a| + 1 + |b|, |a| + 1 + |b| + 1 + |c|;
            e3 <= |line| && line[..e1] == a && line[e1] == ' ' && line[e1 + 1..e2] == b && line[e2] == ' '
            && line[e2 + 1..e3] == c && line[..e2] == a + " " + b && line[..e3] == a + " " + b + " " + c
            && line[e3..] == rest
  {
  }

  lemma ThreeWordEnds(line: string, a: string, b: string, c: string)
    requires CapWord(a) && CapWord(b) && CapWord(c)
    requires var e1, e2, e3 := |a|, |a| + 1 + |b|, |a| + 1 + |b| + 1 + |c|;
             e3 <= |line| && line[..e1] == a && line[e1] == ' ' && line[e1 + 1..e2] == b && line[e2] == ' '
             && line[e2 + 1..e3] == c && (e3 == |line| || !IsLower(line[e3]))
    ensures TwoCapWords(line) == Some(|a| + 1 + |b|)
    ensures ThreeCapWords(line) == Some(|a| + 1 + |b| + 1 + |c|)
  {
    var e1, e2, e3 := |a|, |a| + 1 + |b|, |a| + 1 + |b| + 1 + |c|;
    CapWordMatch(line, 0, a);
    CapWordMatch(line, e1 + 1, b);
    CapWordMatch(line, e2 + 1, c);
    CapWordsEnd(line, e1, e2, e3);
  }

  /** The two- and three-word patterns end where the words they chain end. */
  lemma CapWordsEnd(line: string, e1: nat, e2: nat, e3: nat)
    requires CapWordAt(line, 0) == Some(e1) && e1 < |line| && line[e1] == ' '
    requires CapWordAt(line, e1 + 1) == Some(e2) && e2 < |line| && line[e2] == ' '
    requires CapWordAt(line, e2 + 1) == Some(e3)
    ensures TwoCapWords(line) == Some(e2) && ThreeCapWords(line) == Some(e3)
  {
  }

  /** A stripped candidate line that is not a name as a whole gives the
    * group of the first pattern that matches. */
  lemma NameOfPatternLine(line: string, stops: seq<string>, asWritten: bool)
    requires IsStripped(line) && NameCandidate(line, stops) && !WholeLineName(line)
    requires NamePattern(line, asWritten).Some?
    ensures NameIn([line], stops, asWritten) == NamePattern(line, asWritten).value
  {
    StripOfStripped(line);
  }

  /** A candidate line of three capitalised words and a rest, not a name as
    * a whole: the code as written returns the first two words, the
    * corrected order all three. */
  lemma ThreeWordNameCut(a: string, b: string, c: string, rest: string, stops: seq<string>)
    requires CapWord(a) && CapWord(b) && CapWord(c)
    requires rest == "" || !IsLower(rest[0])
    requires var line := a + " " + b + " " + c + rest;
             IsStripped(line) && NameCandidate(line, stops) && !WholeLineName(line)
    ensures var line := a + " " + b + " " + c + rest;
            NameIn([line], stops, true) == a + " " + b && NameIn([line], stops, false) == a + " " + b + " " + c
  {
    var line := a + " " + b + " " + c + rest;
    PatternOrderCut(a, b, c, rest);
    NameOfPatternLine(line, stops, true);
    NameOfPatternLine(line, stops, false);
  }

  /** The words of the line "John Brown Smith Jr.". */
  const FourWords: seq<string> := ["John", "Brown", "Smith", "Jr."]

  /** On the first line "John Brown Smith Jr." the code as written returns
    * "John Brown"; the corrected order returns all three words. */
  lemma JohnBrownSmithCut()
    ensures var line := "John" + " " + "Brown" + " " + "Smith" + " Jr.";
            NameIn([line], NameStopWords, true) == "John Brown"
            && NameIn([line], NameStopWords, false) == "John Brown Smith"
  {
    var line := "John" + " " + "Brown" + " " + "Smith" + " Jr.";
    FourWordsShape();
    FourWordsLetters(line);
    NoStopLetters(line);
    ThreeWordNameCut("John", "Brown", "Smith", " Jr.", NameStopWords);
    JohnBrownSmithText();
  }

  lemma JohnBrownSmithText()
    ensures "John" + " " + "Brown" == "John Brown"
    ensures "John" + " " + "Brown" + " " + "Smith" == "John Brown Smith"
  {
  }

  /** The line is stripped and has four words, so it is not a name as a whole. */
  lemma FourWordsShape()
    ensures var line := "John" + " " + "Brown" + " " + "Smith" + " Jr.";
            Join(FourWords, " ") == line && IsStripped(line) && !WholeLineName(line)
  {
    LinkedIn.SplitWsJoin(FourWords);
  }

  lemma FourWordsLetters(line: string)
    requires line == "John" + " " + "Brown" + " " + "Smith" + " Jr."
    ensures 'e' !in line && 'p' !in line && 'k' !in line && 'd' !in line
    ensures 'E' !in line && 'P' !in line && 'K' !in line && 'D' !in line
  {
    FourWordsLower(line);
    FourWordsUpper(line);
  }

  lemma FourWordsLower(line: string)
    requires line == "John" + " " + "Brown" + " " + "Smith" + " Jr."
    ensures 'e' !in line && 'p' !in line && 'k' !in line && 'd' !in line
  {
  }

  lemma FourWordsUpper(line: string)
    requires line == "John" + " " + "Brown" + " " + "Smith" + " Jr."
    ensures 'E' !in line && 'P' !in line && 'K' !in line && 'D' !in line
  {
  }

  /** A line without the letters e, p, k and d in either case mentions none
    * of the stop words. */
  lemma NoStopLetters(line: string)
    requires line != ""
    requires 'e' !in line && 'p' !in line && 'k' !in line && 'd' !in line
    requires 'E' !in line && 'P' !in line && 'K' !in line && 'D' !in line
    ensures NameCandidate(line, NameStopWords)
  {
    var l := Lower(line);
    LowerAbsent(line, 'e', 'E');
    LowerAbsent(line, 'p', 'P');
    LowerAbsent(line, 'k', 'K');
    LowerAbsent(line, 'd', 'D');
    AbsentNotContained(l, "email", 'e');
    AbsentNotContained(l, "phone", 'p');
    AbsentNotContained(l, "linkedin", 'k');
    AbsentNotContained(l, "address", 'd');
    var w := NameStopWords;
    assert !MentionsAny(l, w[4..]);
    assert w[3..][1..] == w[4..] && !MentionsAny(l, w[3..]);
    assert w[2..][1..] == w[3..] && !MentionsAny(l, w[2..]);
    assert w[1..][1..] == w[2..] && !MentionsAny(l, w[1..]);
  }

  /** The loop of `extract_name` over its lines. */
  method FirstName(lines: seq<string>, stops: seq<string>, asWritten: bool) returns (name: string)
    ensures name == NameIn(lines, stops, asWritten)
  {
    var i := 0;
    while i < |lines|
      invariant 0 <= i <= |lines|
      invariant NameIn(lines, stops, asWritten) == NameIn(lines[i..], stops, asWritten)
    {
      var line := Strip(lines[i]);
      if |line| > 0 && !MentionsAny(Lower(line), stops) {
        if WholeLineName(line) {
          return line;
        }
        var p := NamePattern(line, asWritten);
        if p.Some? {
          return p.value;
        }
      }
      assert lines[i..][1..] == lines[i + 1..];
      i := i + 1;
    }
    return "";
  }

  // ----------------------------------------------- extract_experience_years

  /** `extract_experience_years`: the digits of the first experience pattern
    * that matches, followed by " years". */
  function ExtractExperienceYears(text: string): (r: string)
    ensures r == "" <==> SearchExperienceYears(text).None?
    ensures r != "" ==> |r| > 6 && IsDigits(r[..|r| - 6]) && r[|r| - 6..] == " years"
  {
    match SearchExperienceYears(text)
    case None => ""
    case Some(years) =>
      YearsSuffix(years, years + " years");
      years + " years"
  }

  lemma YearsSuffix(d: string, r: string)
    requires r == d + " years"
    ensures |r| == |d| + 6 && r[..|d|] == d && r[|d|..] == " years"
  {
  }

  // --------------------------------------------- extract_experience_summary

  const StartWords := ["experience", "employment", "work history", "career"]
  const EndWords := ["education", "skills", "projects", "certifications"]

  /** A line naming the experience section. */
  predicate OpensExperience(line: string)
  {
    MentionsAny(Lower(line), StartWords)
  }

  /** A line naming a section that ends it. */
  predicate ClosesExperience(line: string)
  {
    MentionsAny(Lower(line), EndWords)
  }

  /** The state of the experience scan: inside the section yet, the lines
    * collected, and whether the loop has stopped. */
  datatype Scan = Scan(inSection: bool, lines: seq<string>, stopped: bool)

  /** One line of the experience scan. A line that `opens` the section starts
    * it and is never collected, even when it also `closes` it. */
  function SummaryStep(st: Scan, raw: string, opens: string -> bool, closes: string -> bool): Scan
  {
    if st.stopped then st
    else
      var line := Strip(raw);
      if opens(line) then st.(inSection := true)
      else if st.inSection && closes(line) then st.(stopped := true)
      else if st.inSection && line != "" && |line| > 10 then
        st.(lines := st.lines + [line], stopped := |st.lines| + 1 >= 3)
      else st
  }

  /** A line the scan may collect. */
  predicate ExperienceLine(line: string, opens: string -> bool, closes: string -> bool)
  {
    |line| > 10 && IsStripped(line) && !opens(line) && !closes(line)
  }

  /** The scan over `lines`. At most three lines are collected, each longer
    * than ten characters and neither opening nor closing the section. */
  function SummaryScan(lines: seq<string>, opens: string -> bool, closes: string -> bool): (st: Scan)
    ensures |st.lines| <= 3 && (|st.lines| == 3 ==> st.stopped)
    ensures forall k :: 0 <= k < |st.lines| ==> ExperienceLine(st.lines[k], opens, closes)
    ensures |st.lines| > 0 ==> st.inSection
  {
    if |lines| == 0 then Scan(false, [], false)
    else SummaryStep(SummaryScan(lines[..|lines| - 1], opens, closes), lines[|lines| - 1], opens, closes)
  }

  lemma StepStopped(st: Scan, raw: string, opens: string -> bool, closes: string -> bool)
    requires st.stopped
    ensures SummaryStep(st, raw, opens, closes) == st
  {
  }

  /** Once stopped, later lines change nothing. */
  lemma {:induction false} ScanStopped(lines: seq<string>, i: nat, opens: string -> bool, closes: string -> bool)
    requires i <= |lines| && SummaryScan(lines[..i], opens, closes).stopped
    ensures SummaryScan(lines, opens, closes) == SummaryScan(lines[..i], opens, closes)
    decreases |lines| - i
  {
    if i < |lines| {
      var n := |lines|;
      assert lines[..n - 1][..i] == lines[..i];
      ScanStopped(lines[..n - 1], i, opens, closes);
      StepStopped(SummaryScan(lines[..n - 1], opens, closes), lines[n - 1], opens, closes);
    } else {
      assert lines[..i] == lines;
    }
  }

  /** The summary: the collected lines joined by spaces, cut to 300 characters. */
  function ExperienceSummary(lines: seq<string>, opens: string -> bool, closes: string -> bool): (r: string)
    ensures |r| <= 300
    ensures var c := SummaryScan(lines, opens, closes).lines; r == "" <==> c == [] || Join(c, " ") == ""
  {
    var collected := SummaryScan(lines, opens, closes).lines;
    if |collected| > 0 then Take(Join(collected, " "), 300) else ""
  }

  /** `extract_experience_summary`. */
  method ExtractExperienceSummary(text: string) returns (summary: string)
    ensures summary == ExperienceSummary(Split(text, '\n'), OpensExperience, ClosesExperience)
  {
    var collected := ScanLines(Split(text, '\n'), OpensExperience, ClosesExperience);
    if |collected| > 0 {
      summary := Take(Join(collected, " "), 300);
    } else {
      summary := "";
    }
  }

  /** The loop of `extract_experience_summary`: the lines it collects. */
  method ScanLines(lines: seq<string>, opens: string -> bool, closes: string -> bool) returns (experienceLines: seq<string>)
    ensures experienceLines == SummaryScan(lines, opens, closes).lines
  {
    experienceLines := [];
    var inSection := false;
    var i := 0;
    while i < |lines|
      invariant 0 <= i <= |lines|
      invariant SummaryScan(lines[..i], opens, closes) == Scan(inSection, experienceLines, false)
    {
      assert lines[..i + 1][..i] == lines[..i];
      var line := Strip(lines[i]);
      if opens(line) {
        inSection := true;
      } else if inSection && closes(line) {
        ScanStopped(lines, i + 1, opens, closes);
        return;
      } else if inSection && line != "" && |line| > 10 {
        experienceLines := experienceLines + [line];
        if |experienceLines| >= 3 {
          ScanStopped(lines, i + 1, opens, closes);
          return;
        }
      }
      i := i + 1;
    }
    assert lines[..i] == lines;
  }

  // ---------------------------------------------------- extract_education

  const EducationWords := ["university", "college", "bachelor", "master", "phd", "degree", "diploma"]

  /** A line kept as education: an education word, between 6 and 149 characters. */
  predicate IsEducationLine(line: string)
  {
    MentionsAny(Lower(line), EducationWords) && 5 < |line| < 150
  }

  /** The stripped lines that pass `keep`, in text order. */
  function KeptLines(lines: seq<string>, keep: string -> bool): (r: seq<string>)
    ensures |r| <= |lines|
    ensures forall k :: 0 <= k < |r| ==> keep(r[k]) && IsStripped(r[k])
  {
    if |lines| == 0 then []
    else
      var prev := KeptLines(lines[..|lines| - 1], keep);
      var l := Strip(lines[|lines| - 1]);
      if keep(l) then prev + [l] else prev
  }

  /** A line is kept exactly when it is, stripped, one that passes `keep`. */
  lemma {:induction false} KeptLinesIn(lines: seq<string>, keep: string -> bool, l: string)
    ensures l in KeptLines(lines, keep) <==> keep(l) && l in Stripped(lines)
  {
    if |lines| > 0 {
      var n := |lines|;
      var init := lines[..n - 1];
      KeptLinesIn(init, keep, l);
    }
  }

  /** The kept lines of a prefix start the kept lines of the whole. */
  lemma {:induction false} KeptLinesPrefix(lines: seq<string>, k: nat, keep: string -> bool)
    requires k <= |lines|
    ensures var a := KeptLines(lines[..k], keep); var b := KeptLines(lines, keep);
            |a| <= |b| && b[..|a|] == a
    decreases |lines| - k
  {
    if k < |lines| {
      var n := |lines|;
      var init := lines[..n - 1];
      assert init[..k] == lines[..k];
      KeptLinesPrefix(init, k, keep);
      var b0 := KeptLines(init, keep);
      var b := KeptLines(lines, keep);
      assert b[..|b0|] == b0;
    } else {
      assert lines[..k] == lines;
    }
  }

  /** The first three stripped lines that pass `keep`, in text order. */
  function FirstKept(lines: seq<string>, keep: string -> bool): (r: seq<string>)
    ensures |r| <= 3
    ensures forall k :: 0 <= k < |r| ==> keep(r[k]) && IsStripped(r[k])
    ensures var all := KeptLines(lines, keep); |r| <= |all| && r == all[..|r|]
    ensures |r| < 3 ==> r == KeptLines(lines, keep)
  {
    Take(KeptLines(lines, keep), 3)
  }

  /** `extract_education`. */
  method ExtractEducation(text: string) returns (education: seq<string>)
    ensures education == FirstKept(Split(text, '\n'), IsEducationLine)
  {
    education := FirstEducation(Split(text, '\n'), IsEducationLine);
  }

  /** The loop of `extract_education`, stopping at the third line. */
  method FirstEducation(lines: seq<string>, keep: string -> bool) returns (education: seq<string>)
    ensures education == FirstKept(lines, keep)
  {
    education := [];
    var i := 0;
    while i < |lines| && |education| < 3
      invariant 0 <= i <= |lines|
      invariant education == KeptLines(lines[..i], keep) && |education| <= 3
    {
      KeptSnoc(lines, i, keep);
      var line := Strip(lines[i]);
      if keep(line) {
        education := education + [line];
      }
      i := i + 1;
    }
    if |education| == 3 {
      FirstThree(lines, i, keep);
    } else {
      assert lines[..i] == lines;
    }
  }

  lemma KeptSnoc(lines: seq<string>, i: nat, keep: string -> bool)
    requires i < |lines|
    ensures var l := Strip(lines[i]);
            KeptLines(lines[..i + 1], keep) == KeptLines(lines[..i], keep) + if keep(l) then [l] else []
  {
    assert lines[..i + 1][..i] == lines[..i];
  }

  /** Three kept lines in a prefix are the first three of the whole. */
  lemma FirstThree(lines: seq<string>, k: nat, keep: string -> bool)
    requires k <= |lines| && |KeptLines(lines[..k], keep)| == 3
    ensures FirstKept(lines, keep) == KeptLines(lines[..k], keep)
  {
    KeptLinesPrefix(lines, k, keep);
  }

  // -------------------------------------------------------- extract_skills

  /** `[\w\s+#.-]`: what skill cleaning keeps. */
  predicate IsSkillChar(c: char)
  {
    IsWordChar(c) || IsSpace(c) || c == '+' || c == '#' || c == '.' || c == '-'
  }

  /** Only characters skill cleaning keeps. */
  predicate SkillChars(s: string)
  {
    forall i :: 0 <= i < |s| ==> IsSkillChar(s[i])
  }

  /** `re.sub(r'[^\w\s+#.-]', '', s).strip()`. */
  function CleanSkill(s: string): (r: string)
    ensures IsStripped(r)
  {
    Strip(KeepChars(s, IsSkillChar))
  }

  /** A cleaned skill holds only the characters cleaning keeps. */
  lemma CleanSkillChars(s: string)
    ensures SkillChars(CleanSkill(s))
  {
    var k := KeepChars(s, IsSkillChar);
    StripKeeps(k, IsSkillChar);
  }

  /** `skill and len(skill) > 1`. */
  predicate LongEnough(s: string)
  {
    |s| > 1
  }

  /** `clean` applied to every skill. */
  function Cleaned(xs: seq<string>, clean: string -> string): (r: seq<string>)
    ensures |r| == |xs|
    ensures forall k :: 0 <= k < |r| ==> r[k] == clean(xs[k])
  {
    if |xs| == 0 then [] else Cleaned(xs[..|xs| - 1], clean) + [clean(xs[|xs| - 1])]
  }

  /** The cleaning pass: every skill cleaned, those longer than one character
    * kept, each once, in first-seen order. */
  function CleaningPass(found: seq<string>, clean: string -> string): (r: seq<string>)
    ensures NoDups(r) && |r| <= |found|
    ensures forall k :: 0 <= k < |r| ==> LongEnough(r[k])
    ensures forall x :: x in r <==> x in Cleaned(found, clean) && LongEnough(x)
  {
    Dedup(Filter(Cleaned(found, clean), LongEnough))
  }

  /** One more skill: it is appended when it is long enough and new. */
  lemma CleaningSnoc(found: seq<string>, i: nat, clean: string -> string)
    requires i < |found|
    ensures var before := CleaningPass(found[..i], clean); var c := clean(found[i]);
            CleaningPass(found[..i + 1], clean) == if LongEnough(c) && c !in before then before + [c] else before
  {
    var c := clean(found[i]);
    var ys := Cleaned(found[..i + 1], clean);
    assert found[..i + 1][..i] == found[..i];
    assert ys[..i] == Cleaned(found[..i], clean);
    FilterSnoc(ys, i, LongEnough);
    var xs := Filter(Cleaned(found[..i], clean), LongEnough);
    if LongEnough(c) {
      DedupSnoc(xs, c);
    }
  }

  /** The vocabulary pass: each term found in the lowercased text `s` and not
    * yet listed is appended, in vocabulary order. */
  function VocabularyPass(acc: seq<string>, s: string, vocab: seq<string>, asWritten: bool): (r: seq<string>)
    ensures |acc| <= |r| && r[..|acc|] == acc
    ensures forall t :: t in r <==> t in acc || (t in vocab && LinkedIn.TermFound(s, Lower(t), asWritten))
  {
    if |vocab| == 0 then acc
    else
      var prev := VocabularyPass(acc, s, vocab[..|vocab| - 1], asWritten);
      var t := vocab[|vocab| - 1];
      assert vocab == vocab[..|vocab| - 1] + [t];
      if LinkedIn.TermFound(s, Lower(t), asWritten) && t !in prev then
        assert (prev + [t])[..|acc|] == prev[..|acc|];
        prev + [t]
      else prev
  }

  /** `[,•·\n-]`: the characters a skills section is split on. */
  predicate IsSkillSeparator(c: char)
  {
    c == ',' || c == '\U{2022}' || c == '\U{00B7}' || c == '\n' || c == '-'
  }

  /** `re.split(r'[,•·\n-]+', match.strip())`: the pieces of one section. */
  function SectionPieces(section: string): seq<string>
  {
    SplitOnRuns(Strip(section), IsSkillSeparator)
  }

  /** The pieces of every section, section by section. */
  function AllPieces(sections: seq<string>): seq<string>
  {
    if |sections| == 0 then [] else AllPieces(sections[..|sections| - 1]) + SectionPieces(sections[|sections| - 1])
  }

  /** What the sections give: every piece stripped, those longer than one
    * character kept, in order. */
  function SectionSkills(sections: seq<string>): (r: seq<string>)
    ensures forall k :: 0 <= k < |r| ==> LongEnough(r[k]) && IsStripped(r[k])
  {
    Filter(Stripped(AllPieces(sections)), LongEnough)
  }

  /** The skills the text yields: the pieces of its skills sections, then
    * the vocabulary terms found in the text (`asWritten`: with `\b` on both
    * sides as the code has it, otherwise standing alone); all cleaned,
    * de-duplicated, at most 20. */
  function SkillsOf(text: string, vocab: seq<string>, asWritten: bool): (r: seq<string>)
    ensures |r| <= 20 && NoDups(r)
    ensures forall k :: 0 <= k < |r| ==> LongEnough(r[k])
  {
    var found := VocabularyPass(SectionSkills(SkillSections(text)), Lower(text), vocab, asWritten);
    var cleaned := CleaningPass(found, CleanSkill);
    TakeKeeps(cleaned, 20);
    Take(cleaned, 20)
  }

  /** Every skill is stripped and holds only the characters cleaning keeps. */
  lemma SkillsOfClean(text: string, vocab: seq<string>, asWritten: bool)
    ensures forall x :: x in SkillsOf(text, vocab, asWritten) ==> IsStripped(x) && SkillChars(x)
  {
    CleanedSkillsClean(VocabularyPass(SectionSkills(SkillSections(text)), Lower(text), vocab, asWritten));
  }

  /** The first twenty cleaned skills are stripped and hold only the
    * characters cleaning keeps. */
  lemma CleanedSkillsClean(found: seq<string>)
    ensures forall x :: x in Take(CleaningPass(found, CleanSkill), 20) ==> IsStripped(x) && SkillChars(x)
  {
    var cleaned := CleaningPass(found, CleanSkill);
    TakeKeeps(cleaned, 20);
    forall x | x in Take(cleaned, 20)
      ensures IsStripped(x) && SkillChars(x)
    {
      assert x in Cleaned(found, CleanSkill);
      var k :| 0 <= k < |found| && Cleaned(found, CleanSkill)[k] == x;
      CleanSkillChars(found[k]);
    }
  }

  /** A prefix keeps the absence of duplicates and holds only elements of the whole. */
  lemma TakeKeeps(xs: seq<string>, n: nat)
    ensures NoDups(xs) ==> NoDups(Take(xs, n))
    ensures forall x :: x in Take(xs, n) ==> x in xs
  {
    var r := Take(xs, n);
    assert forall i :: 0 <= i < |r| ==> r[i] == xs[i];
  }

  /** `extract_skills`, with the vocabulary test corrected: a term counts
    * when it stands alone in the text. */
  method ExtractSkills(text: string) returns (skills: seq<string>)
    ensures skills == SkillsOf(text, LinkedIn.CommonSkills, false)
  {
    var found := CollectSectionSkills(SkillSections(text));
    found := AddVocabulary(found, Lower(text), LinkedIn.CommonSkills, false);
    var cleaned := CleanSkills(found, CleanSkill);
    skills := Take(cleaned, 20);
  }

  /** `extract_skills` as the code has it, `\b` on both sides of each term. */
  method ExtractSkillsAsWritten(text: string) returns (skills: seq<string>)
    ensures skills == SkillsOf(text, LinkedIn.CommonSkills, true)
  {
    var found := CollectSectionSkills(SkillSections(text));
    found := AddVocabulary(found, Lower(text), LinkedIn.CommonSkills, true);
    var cleaned := CleanSkills(found, CleanSkill);
    skills := Take(cleaned, 20);
  }

  /** The section loop: each match is stripped and split, and its pieces
    * collected. */
  method CollectSectionSkills(sections: seq<string>) returns (found: seq<string>)
    ensures found == SectionSkills(sections)
  {
    found := [];
    for i := 0 to |sections|
      invariant found == SectionSkills(sections[..i])
    {
      var pieces := SplitOnRuns(Strip(sections[i]), IsSkillSeparator);
      var got := CollectPieces(pieces);
      SectionSkillsSnoc(sections, i);
      found := found + got;
    }
    assert sections[..|sections|] == sections;
  }

  /** One more section adds the skills of its own pieces. */
  lemma SectionSkillsSnoc(sections: seq<string>, i: nat)
    requires i < |sections|
    ensures SectionSkills(sections[..i + 1])
            == SectionSkills(sections[..i]) + Filter(Stripped(SectionPieces(sections[i])), LongEnough)
  {
    var pre := sections[..i + 1];
    assert pre[..i] == sections[..i] && pre[i] == sections[i];
    var a, b := AllPieces(sections[..i]), SectionPieces(sections[i]);
    assert AllPieces(pre) == a + b;
    StrippedAppend(a, b);
    FilterAppend(Stripped(a), Stripped(b), LongEnough);
  }

  lemma StrippedAppend(a: seq<string>, b: seq<string>)
    ensures Stripped(a + b) == Stripped(a) + Stripped(b)
  {
    var ab := a + b;
    forall k | 0 <= k < |ab|
      ensures Stripped(ab)[k] == (Stripped(a) + Stripped(b))[k]
    {
      StrippedAt(ab, k);
      if k < |a| {
        StrippedAt(a, k);
      } else {
        StrippedAt(b, k - |a|);
      }
    }
  }

  /** The piece loop: each piece stripped, kept when longer than one character. */
  method CollectPieces(parts: seq<string>) returns (found: seq<string>)
    ensures found == Filter(Stripped(parts), LongEnough)
  {
    found := [];
    for i := 0 to |parts|
      invariant found == Filter(Stripped(parts[..i]), LongEnough)
    {
      PieceSkillsSnoc(parts, i);
      var skill := Strip(parts[i]);
      if skill != "" && |skill| > 1 {
        found := found + [skill];
      }
    }
    assert parts[..|parts|] == parts;
  }

  lemma PieceSkillsSnoc(parts: seq<string>, i: nat)
    requires i < |parts|
    ensures var skill := Strip(parts[i]);
            Filter(Stripped(parts[..i + 1]), LongEnough)
            == Filter(Stripped(parts[..i]), LongEnough) + (if LongEnough(skill) then [skill] else [])
  {
    assert parts[..i + 1][..i] == parts[..i];
    var xs := Stripped(parts[..i + 1]);
    assert xs == Stripped(parts[..i]) + [Strip(parts[i])];
    assert xs[..i] == Stripped(parts[..i]);
    FilterSnoc(xs, i, LongEnough);
  }

  /** The vocabulary loop of `extract_skills`: the plain substring test,
    * then the `\b` test as written (`asWritten`) or the corrected standalone
    * test, then the duplicate test. */
  method AddVocabulary(found0: seq<string>, textLower: string, vocab: seq<string>, asWritten: bool) returns (found: seq<string>)
    ensures found == VocabularyPass(found0, textLower, vocab, asWritten)
  {
    found := found0;
    for k := 0 to |vocab|
      invariant found == VocabularyPass(found0, textLower, vocab[..k], asWritten)
    {
      assert vocab[..k + 1][..k] == vocab[..k];
      var skill := vocab[k];
      var term := Lower(skill);
      LinkedIn.TermFoundContains(textLower, term, asWritten);
      if Contains(textLower, term) {
        if LinkedIn.TermFound(textLower, term, asWritten) {
          if skill !in found {
            found := found + [skill];
          }
        }
      }
    }
    assert vocab[..|vocab|] == vocab;
  }

  /** The cleaning loop of `extract_skills`. */
  method CleanSkills(found: seq<string>, clean: string -> string) returns (cleaned: seq<string>)
    ensures cleaned == CleaningPass(found, clean)
  {
    cleaned := [];
    for i := 0 to |found|
      invariant cleaned == CleaningPass(found[..i], clean)
    {
      CleaningSnoc(found, i, clean);
      var skill := clean(found[i]);
      if skill != "" && |skill| > 1 && skill !in cleaned {
        cleaned := cleaned + [skill];
      }
    }
    assert found[..|found|] == found;
  }

  /** As written, the vocabulary pass misses "C++" in the text "C++"; the
    * corrected test finds it. */
  lemma ResumeCPlusPlusMissed()
    ensures VocabularyPass([], Lower("C++"), ["C++"], true) == []
    ensures VocabularyPass([], Lower("C++"), ["C++"], false) == ["C++"]
  {
    var t := "C++";
    LinkedIn.LowerCpp(t);
    var w := Lower(t);
    assert LinkedIn.StandaloneAt(w, w, 0);
    assert ["C++"][..0] == [];
  }

  // ---------------------------------------------------------- parse_text

  /** The fields `parse_text` fills in. */
  datatype CandidateFields = CandidateFields(fullName: string, email: string, phone: string, linkedinUrl: string, location: string,
                           skills: seq<string>, experienceSummary: string, education: seq<string>,
                           currentCompany: string, currentPosition: string, totalExperience: string)

  /** The fields of the cleaned text `t`, given what the e-mail, location and
    * current-work extractors give for it.
    * Its contract is what `parse_text` promises of each field. */
  function ParsedFields(t: string, email: string, location: string, work: (string, string)): (f: CandidateFields)
    ensures f.phone == "" || IsFormattedPhone(f.phone)
    ensures f.linkedinUrl == "" || StartsWith(f.linkedinUrl, "http")
    ensures |f.skills| <= 20 && NoDups(f.skills)
    ensures |f.education| <= 3 && |f.experienceSummary| <= 300
    ensures f.email == email && f.location == location && (f.currentCompany, f.currentPosition) == work
  {
    CandidateFields(NameIn(Take(Split(t, '\n'), 5), NameStopWords, false), email, ExtractPhone(t), ExtractLinkedIn(t), location,
           SkillsOf(t, LinkedIn.CommonSkills, false), ExperienceSummary(Split(t, '\n'), OpensExperience, ClosesExperience),
                    FirstKept(Split(t, '\n'), IsEducationLine), work.0, work.1, ExtractExperienceYears(t))
  }

  /** A parsed candidate, built once from its fields. */
  class ParsedCandidate {
    var fullName: string
    var email: string
    var phone: string
    var linkedinUrl: string
    var location: string
    var skills: seq<string>
    var experienceSummary: string
    var education: seq<string>
    var currentCompany: string
    var currentPosition: string
    var totalExperience: string

    function Fields(): CandidateFields
      reads this
    {
      CandidateFields(fullName, email, phone, linkedinUrl, location, skills, experienceSummary, education,
                    currentCompany, currentPosition, totalExperience)
    }

    constructor (f: CandidateFields)
      ensures Fields() == f
    {
      fullName, email, phone, linkedinUrl, location := f.fullName, f.email, f.phone, f.linkedinUrl, f.location;
      skills, experienceSummary, education := f.skills, f.experienceSummary, f.education;
      currentCompany, currentPosition, totalExperience := f.currentCompany, f.currentPosition, f.totalExperience;
    }
  }

  /** `parse_text`: every extractor runs on the cleaned text. The e-mail,
    * location and current-work extractors are given as functions. */
  method ParseText(text: string, emailOf: string -> string, locationOf: string -> string,
                   currentWorkOf: string -> (string, string))
    returns (c: ParsedCandidate)
    ensures fresh(c)
    ensures c.Fields() == ParsedFields(CleanText(text), Apply(emailOf, CleanText(text)), Apply(locationOf, CleanText(text)),
                                       ApplyPair(currentWorkOf, CleanText(text)))
  {
    var t := CleanText(text);
    var email := Apply(emailOf, t);
    var location := Apply(locationOf, t);
    var work := ApplyPair(currentWorkOf, t);
    var f := Extract(t, email, location, work);
    c := new ParsedCandidate(f);
  }

  /** The oracles' answers, taken without touching the heap. */
  function Apply(f: string -> string, t: string): string { f(t) }
  function ApplyPair(f: string -> (string, string), t: string): (string, string) { f(t) }

  /** Every extractor on the cleaned text. */
  method Extract(t: string, email: string, location: string, work: (string, string))
    returns (f: CandidateFields)
    ensures f == ParsedFields(t, email, location, work)
  {
    var name := ExtractName(t);
    var skills := ExtractSkills(t);
    var summary := ExtractExperienceSummary(t);
    var education := ExtractEducation(t);
    f := CandidateFields(name, email, ExtractPhone(t), ExtractLinkedIn(t), location, skills, summary, education,
                work.0, work.1, ExtractExperienceYears(t));
  }
}
