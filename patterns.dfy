/** The regular expressions the system applies, each written out as the
  * matcher it denotes. A pattern used with `re.match` becomes a predicate on
  * the text. A pattern used with `re.search` or `re.findall` becomes a
  * matcher at one position, tried at each position from the left, with
  * Python's backtracking order wherever that order decides what is
  * captured. `IGNORECASE` compares ASCII lower-case forms. */
module Patterns {
  import opened Wrappers
  import opened Text

  // ------------------------------------------------------------ basics

  /** The text at `i` spells `lit` (given in lower case), ignoring case. */
  predicate MatchesCI(s: string, i: nat, lit: string)
  {
    i + |lit| <= |s| && Lower(s[i..i + |lit|]) == lit
  }

  /** The end of the run of characters satisfying `p` that starts at `i`. */
  function RunEnd(s: string, i: nat, p: char -> bool): (e: nat)
    ensures i <= |s| ==> i <= e <= |s|
    ensures i > |s| ==> e == i
    ensures forall k :: i <= k < e ==> p(s[k])
    ensures e < |s| ==> !p(s[e])
    decreases |s| - i
  {
    if i < |s| && p(s[i]) then RunEnd(s, i + 1, p) else i
  }

  /** The run from `i` ends at `j` when the characters before `j` satisfy
    * `p` and the one at `j`, if any, does not. */
  lemma {:induction false} RunEndExact(s: string, i: nat, j: nat, p: char -> bool)
    requires i <= j <= |s|
    requires forall k :: i <= k < j ==> p(s[k])
    requires j == |s| || !p(s[j])
    ensures RunEnd(s, i, p) == j
    decreases j - i
  {
    if i < j {
      RunEndExact(s, i + 1, j, p);
    }
  }

  function DigitRunEnd(s: string, i: nat): (e: nat)
    ensures i <= |s| ==> i <= e <= |s|
    ensures i > |s| ==> e == i
    ensures forall k :: i <= k < e ==> IsDigit(s[k])
    ensures e < |s| ==> !IsDigit(s[e])
  {
    RunEnd(s, i, IsDigit)
  }

  function SpaceRunEnd(s: string, i: nat): (e: nat)
    ensures i <= |s| ==> i <= e <= |s|
    ensures i > |s| ==> e == i
    ensures forall k :: i <= k < e ==> IsSpace(s[k])
    ensures e < |s| ==> !IsSpace(s[e])
  {
    RunEnd(s, i, IsSpace)
  }

  /** `\b`: exactly one side of position `i` is a word character. */
  predicate Boundary(s: string, i: nat)
  {
    (0 < i <= |s| && IsWordChar(s[i - 1])) != (i < |s| && IsWordChar(s[i]))
  }

  /** The first position in `from..n` where `f` finds a match, with what it found. */
  function FirstMatch<T>(n: nat, from: nat, f: nat -> Option<T>): (r: Option<(nat, T)>)
    ensures r.Some? ==> from <= r.value.0 <= n && f(r.value.0) == Some(r.value.1)
    ensures r.Some? ==> forall j :: from <= j < r.value.0 ==> f(j).None?
    ensures r.None? ==> forall j :: from <= j <= n ==> f(j).None?
    decreases n + 1 - from
  {
    if from > n then None
    else match f(from)
      case Some(x) => Some((from, x))
      case None => FirstMatch(n, from + 1, f)
  }

  function OrElse<T>(a: Option<T>, b: Option<T>): (r: Option<T>)
    ensures a.Some? ==> r == a
    ensures a.None? ==> r == b
  {
    if a.Some? then a else b
  }

  // ------------------------------------------ `(\d+)\+?\s*years?`, IGNORECASE

  /** The end of the digit group when the years pattern matches at `p`. */
  function YearsAt(s: string, p: nat): (r: Option<nat>)
    ensures r.Some? ==> p < r.value <= |s| && AllDigits(s[p..r.value])
  {
    if p < |s| && IsDigit(s[p]) then
      var q := DigitRunEnd(s, p);
      var q1 := if q < |s| && s[q] == '+' then q + 1 else q;
      if MatchesCI(s, SpaceRunEnd(s, q1), "year") then Some(q) else None
    else None
  }

  /** `re.search(r'(\d+)\+?\s*years?', s, re.I).group(1)`, if any. */
  function SearchYears(s: string): (r: Option<string>)
    ensures r.Some? ==> IsDigits(r.value)
  {
    match FirstMatch(|s|, 0, p => YearsAt(s, p))
    case None => None
    case Some((p, q)) => Some(s[p..q])
  }

  // -------------------------------------------- experience phrases

  /** `(\d+)\+?\s*<unit>s?\s+(?:of\s+)?experience` at `p`, for unit "year" or "yr". */
  function UnitExperienceAt(s: string, p: nat, unit: string): (r: Option<nat>)
    ensures r.Some? ==> p < r.value <= |s| && AllDigits(s[p..r.value])
  {
    if p < |s| && IsDigit(s[p]) then
      var q := DigitRunEnd(s, p);
      var q1 := if q < |s| && s[q] == '+' then q + 1 else q;
      var u := SpaceRunEnd(s, q1);
      if !MatchesCI(s, u, unit) then None
      else
        var v := u + |unit|;
        var v1 := if v < |s| && (s[v] == 's' || s[v] == 'S') then v + 1 else v;
        var t := SpaceRunEnd(s, v1);
        if t == v1 then None
        else
          var afterOf := SpaceRunEnd(s, t + 2);
          if (MatchesCI(s, t, "of") && afterOf > t + 2 && MatchesCI(s, afterOf, "experience"))
             || MatchesCI(s, t, "experience")
          then Some(q)
          else None
    else None
  }

  /** `experience.*?(\d+)\+?\s*years?` at `p`: the first digit run on the same
    * line after the word, followed by "year". Returns the group's bounds. */
  function ExperienceThenYearsAt(s: string, p: nat): (r: Option<(nat, nat)>)
    ensures r.Some? ==> r.value.0 < r.value.1 <= |s| && AllDigits(s[r.value.0..r.value.1])
  {
    if !MatchesCI(s, p, "experience") then None
    else LazyYears(s, p + 10)
  }

  function LazyYears(s: string, q: nat): (r: Option<(nat, nat)>)
    ensures r.Some? ==> q <= r.value.0 < r.value.1 <= |s| && AllDigits(s[r.value.0..r.value.1])
    decreases |s| - q
  {
    if q >= |s| then None
    else match YearsAt(s, q)
      case Some(e) => Some((q, e))
      case None => if s[q] == '\n' then None else LazyYears(s, q + 1)
  }

  /** The first of the three experience patterns that matches, and its group. */
  function SearchExperienceYears(s: string): (r: Option<string>)
    ensures r.Some? ==> IsDigits(r.value)
  {
    match FirstMatch(|s|, 0, p => UnitExperienceAt(s, p, "year"))
    case Some((p, q)) => Some(s[p..q])
    case None =>
      match FirstMatch(|s|, 0, p => UnitExperienceAt(s, p, "yr"))
      case Some((p, q)) => Some(s[p..q])
      case None =>
        match FirstMatch(|s|, 0, p => ExperienceThenYearsAt(s, p))
        case Some((_, g)) => Some(s[g.0..g.1])
        case None => None
  }

  // ------------------------------------------------------------ phone
  // (?:\+?1[-.\s]?)?\(?([0-9]{3})\)?[-.\s]?([0-9]{3})[-.\s]?([0-9]{4})

  predicate IsPhoneSep(c: char) { c == '-' || c == '.' || IsSpace(c) }

  predicate DigitsAt(s: string, i: nat, n: nat)
  {
    i + n <= |s| && forall k :: i <= k < i + n ==> IsDigit(s[k])
  }

  predicate PhoneGroups(g: (string, string, string))
  {
    |g.0| == 3 && |g.1| == 3 && |g.2| == 4 && AllDigits(g.0) && AllDigits(g.1) && AllDigits(g.2)
  }

  function PhoneLine(s: string, a: string, b: string, t: nat): (r: Option<(string, string, string)>)
    requires |a| == 3 && |b| == 3 && AllDigits(a) && AllDigits(b)
    ensures r.Some? ==> PhoneGroups(r.value)
  {
    if DigitsAt(s, t, 4) then Some((a, b, s[t..t + 4])) else None
  }

  function PhoneAfterExchange(s: string, a: string, b: string, t: nat): (r: Option<(string, string, string)>)
    requires |a| == 3 && |b| == 3 && AllDigits(a) && AllDigits(b)
    ensures r.Some? ==> PhoneGroups(r.value)
  {
    OrElse(if t < |s| && IsPhoneSep(s[t]) then PhoneLine(s, a, b, t + 1) else None, PhoneLine(s, a, b, t))
  }

  function PhoneExchange(s: string, a: string, n: nat): (r: Option<(string, string, string)>)
    requires |a| == 3 && AllDigits(a)
    ensures r.Some? ==> PhoneGroups(r.value)
  {
    if DigitsAt(s, n, 3) then PhoneAfterExchange(s, a, s[n..n + 3], n + 3) else None
  }

  function PhoneAfterClose(s: string, a: string, m: nat): (r: Option<(string, string, string)>)
    requires |a| == 3 && AllDigits(a)
    ensures r.Some? ==> PhoneGroups(r.value)
  {
    OrElse(if m < |s| && IsPhoneSep(s[m]) then PhoneExchange(s, a, m + 1) else None, PhoneExchange(s, a, m))
  }

  function PhoneAfterArea(s: string, a: string, m: nat): (r: Option<(string, string, string)>)
    requires |a| == 3 && AllDigits(a)
    ensures r.Some? ==> PhoneGroups(r.value)
  {
    OrElse(if m < |s| && s[m] == ')' then PhoneAfterClose(s, a, m + 1) else None, PhoneAfterClose(s, a, m))
  }

  function PhoneArea(s: string, k: nat): (r: Option<(string, string, string)>)
    ensures r.Some? ==> PhoneGroups(r.value)
  {
    if DigitsAt(s, k, 3) then PhoneAfterArea(s, s[k..k + 3], k + 3) else None
  }

  function PhoneRest(s: string, j: nat): (r: Option<(string, string, string)>)
    ensures r.Some? ==> PhoneGroups(r.value)
  {
    OrElse(if j < |s| && s[j] == '(' then PhoneArea(s, j + 1) else None, PhoneArea(s, j))
  }

  function PhoneAfterOne(s: string, j: nat): (r: Option<(string, string, string)>)
    ensures r.Some? ==> PhoneGroups(r.value)
  {
    OrElse(if j < |s| && IsPhoneSep(s[j]) then PhoneRest(s, j + 1) else None, PhoneRest(s, j))
  }

  /** The three groups of a phone match starting at `i`, taking the first
    * alternative in backtracking order: the country prefix "+1" then "1"
    * before none, each optional separator or parenthesis before its absence. */
  function PhoneAt(s: string, i: nat): (r: Option<(string, string, string)>)
    ensures r.Some? ==> PhoneGroups(r.value)
  {
    var withPlus := if i + 1 < |s| && s[i] == '+' && s[i + 1] == '1' then PhoneAfterOne(s, i + 2) else None;
    var withOne := if i < |s| && s[i] == '1' then PhoneAfterOne(s, i + 1) else None;
    OrElse(OrElse(withPlus, withOne), PhoneRest(s, i))
  }

  /** The groups of the first element of `findall` for the phone pattern. */
  function SearchPhone(s: string): (r: Option<(string, string, string)>)
    ensures r.Some? ==> PhoneGroups(r.value)
  {
    match FirstMatch(|s|, 0, i => PhoneAt(s, i))
    case None => None
    case Some((_, g)) => Some(g)
  }

  // ---------------------------------------------------- LinkedIn URLs

  predicate IsHandleChar(c: char) { IsWordChar(c) || c == '-' }

  /** After the host: `linkedin.com/in/` then `[A-Za-z0-9_-]+/?`; returns the match end. */
  function LinkedInAfterHost(s: string, m: nat): (r: Option<nat>)
    ensures r.Some? ==> m + 16 < r.value <= |s|
  {
    if !(MatchesCI(s, m, "linkedin.com") && MatchesCI(s, m + 12, "/in/")) then None
    else
      var u := m + 16;
      var e := RunEnd(s, u, IsHandleChar);
      if e == u then None
      else Some(if e < |s| && s[e] == '/' then e + 1 else e)
  }

  function LinkedInAfterScheme(s: string, k: nat): (r: Option<nat>)
    ensures r.Some? ==> k < r.value <= |s|
  {
    OrElse(if MatchesCI(s, k, "www.") then LinkedInAfterHost(s, k + 4) else None, LinkedInAfterHost(s, k))
  }

  /** `(?:https?://)?(?:www\.)?linkedin\.com/in/[A-Za-z0-9_-]+/?` at `p`,
    * IGNORECASE; returns the end of the match. */
  function LinkedInAt(s: string, p: nat): (r: Option<nat>)
    ensures r.Some? ==> p < r.value <= |s|
  {
    var https := if MatchesCI(s, p, "https://") then LinkedInAfterScheme(s, p + 8) else None;
    var http := if MatchesCI(s, p, "http://") then LinkedInAfterScheme(s, p + 7) else None;
    OrElse(OrElse(https, http), LinkedInAfterScheme(s, p))
  }

  /** The first element of `findall` for the LinkedIn pattern. */
  function SearchLinkedIn(s: string): (r: Option<string>)
    ensures r.Some? ==> |r.value| > 0
  {
    match FirstMatch(|s|, 0, p => LinkedInAt(s, p))
    case None => None
    case Some((p, e)) => Some(s[p..e])
  }

  /** `$`: the end of the text, or just before a final newline. */
  predicate AtEnd(s: string, i: nat)
  {
    i == |s| || (i + 1 == |s| && s[i] == '\n')
  }

  /** `^https?://(?:www\.)?linkedin\.com/in/[A-Za-z0-9_-]+/?$`, IGNORECASE. */
  predicate IsProfileUrl(s: string)
  {
    var k := if MatchesCI(s, 0, "https://") then 8 else if MatchesCI(s, 0, "http://") then 7 else 0;
    k > 0 && (ProfileTail(s, k + 4, MatchesCI(s, k, "www.")) || ProfileTail(s, k, true))
  }

  /** From the host on: `linkedin.com/in/`, a non-empty handle, an optional
    * slash, then the end. */
  predicate ProfileTail(s: string, m: nat, allowed: bool)
  {
    allowed && MatchesCI(s, m, "linkedin.com") && MatchesCI(s, m + 12, "/in/") &&
    var e := RunEnd(s, m + 16, IsHandleChar);
    e > m + 16 && (AtEnd(s, e) || (e < |s| && s[e] == '/' && AtEnd(s, e + 1)))
  }

  // -------------------------------------------------------- e-mail
  // \b[A-Za-z0-9._%+-]+@[A-Za-z0-9.-]+\.[A-Z|a-z]{2,}\b

  predicate IsLocalChar(c: char) { IsAlnum(c) || c == '.' || c == '_' || c == '%' || c == '+' || c == '-' }
  predicate IsDomainChar(c: char) { IsAlnum(c) || c == '.' || c == '-' }
  predicate IsTopLevelChar(c: char) { IsLetter(c) || c == '|' }

  /** The pattern matches `s[p..e]` with the `@` at `a` and the last dot at `d`. */
  predicate EmailSplit(s: string, p: nat, a: nat, d: nat, e: nat)
  {
    p < a && a + 1 < d && d + 3 <= e <= |s| &&
    (forall k :: p <= k < a ==> IsLocalChar(s[k])) && s[a] == '@' &&
    (forall k :: a < k < d ==> IsDomainChar(s[k])) && s[d] == '.' &&
    (forall k :: d < k < e ==> IsTopLevelChar(s[k])) &&
    Boundary(s, p) && Boundary(s, e)
  }

  /** `re.match` of the e-mail pattern: some prefix of `s` is an address. */
  predicate EmailMatches(s: string)
  {
    exists a, d, e | 0 <= a < |s| && 0 <= d < |s| && 0 <= e <= |s| :: EmailSplit(s, 0, a, d, e)
  }

  lemma EmailExample()
    ensures EmailMatches("john@example.com")
  {
    var s := "john@example.com";
    assert EmailSplit(s, 0, 4, 12, 16);
  }

  lemma EmailNeedsAt(s: string)
    requires '@' !in s
    ensures !EmailMatches(s)
  {
    forall a: int | 0 <= a < |s|
      ensures s[a] != '@'
    {
      assert s[a] in s;
    }
  }

  // -------------------------------------------------- other patterns

  /** `re.search(r'\d{3,}', s)`: three digits in a row somewhere. */
  predicate HasThreeDigits(s: string)
  {
    exists i | 0 <= i < |s| :: DigitsAt(s, i, 3)
  }

  /** `re.search(r'\b' + re.escape(w) + r'\b', s)`. */
  predicate WholeWordAt(s: string, w: string, i: nat)
  {
    OccursAt(s, w, i) && Boundary(s, i) && Boundary(s, i + |w|)
  }

  predicate ContainsWholeWord(s: string, w: string)
  {
    exists i | 0 <= i <= |s| :: WholeWordAt(s, w, i)
  }

  lemma WholeWordContains(s: string, w: string)
    requires ContainsWholeWord(s, w)
    ensures Contains(s, w)
  {
    var i :| 0 <= i <= |s| && WholeWordAt(s, w, i);
    ContainsAt(s, w, i);
  }

  // ------------------------------------------------ skills sections

  predicate NotNewline(c: char) { c != '\n' }

  /** No empty line starts between `k` and `k + 1`. */
  predicate NoBlankAt(s: string, k: nat)
    requires k + 1 < |s|
  {
    s[k] != '\n' || s[k + 1] != '\n'
  }

  /** `[^\n]+(?:\n[^\n]+)*` from `z`: the end of the block of non-empty
    * lines that starts at `z`. */
  function BlockEnd(s: string, z: nat): (e: nat)
    requires z < |s| && s[z] != '\n'
    ensures z < e <= |s| && s[e - 1] != '\n'
    ensures e == |s| || (s[e] == '\n' && (e + 1 == |s| || s[e + 1] == '\n'))
    ensures forall k :: z <= k < e - 1 ==> NoBlankAt(s, k)
    decreases |s| - z
  {
    var l := RunEnd(s, z, NotNewline);
    if l + 1 < |s| && s[l + 1] != '\n' then BlockEnd(s, l + 1) else l
  }

  /** The last position in `lo..hi` whose character is not a newline. */
  function LastNonNewline(s: string, lo: nat, hi: nat): (r: Option<nat>)
    requires hi <= |s|
    ensures r.Some? ==> lo <= r.value < hi && s[r.value] != '\n'
    ensures r.Some? ==> forall k :: r.value < k < hi ==> s[k] == '\n'
    ensures r.None? ==> forall k :: lo <= k < hi ==> s[k] == '\n'
    decreases hi
  {
    if hi <= lo then None
    else if s[hi - 1] != '\n' then Some(hi - 1)
    else LastNonNewline(s, lo, hi - 1)
  }

  /** `\s*:?\s*` from `q`, then the first character of the group, as
    * Python's backtracking finds it: the greedy runs give back characters
    * only when nothing but newlines is left to start the group. */
  function GroupStart(s: string, q: nat): (r: Option<nat>)
    requires q <= |s|
    ensures r.Some? ==> q <= r.value < |s| && s[r.value] != '\n'
    ensures r.None? ==> forall k :: q <= k < |s| ==> s[k] == '\n'
  {
    var w1 := SpaceRunEnd(s, q);
    if w1 < |s| && s[w1] == ':' then
      var w2 := SpaceRunEnd(s, w1 + 1);
      if w2 < |s| then Some(w2)
      else OrElse(LastNonNewline(s, w1 + 1, w2), Some(w1))
    else if w1 < |s| then Some(w1)
    else LastNonNewline(s, q, w1)
  }

  /** `s?` after a keyword ending at `k`, then the rest: the plural 's' is
    * given back when the group cannot start after it. */
  function AfterKeyword(s: string, k: nat): (r: Option<nat>)
    requires k <= |s|
    ensures r.Some? ==> k <= r.value < |s| && s[r.value] != '\n'
  {
    if k < |s| && LowerChar(s[k]) == 's' then OrElse(GroupStart(s, k + 1), GroupStart(s, k))
    else GroupStart(s, k)
  }

  /** The three section headers of `extract_skills`, tried in this order. */
  datatype SectionKind = SkillsHeader | TechnologiesHeader | LanguagesHeader

  /** `word\s+next` ignoring case at `p`: where `next` ends. */
  function TwoWordsAt(s: string, p: nat, word: string, next: string): (r: Option<nat>)
    ensures r.Some? ==> p < r.value <= |s|
  {
    if MatchesCI(s, p, word) then
      var w := SpaceRunEnd(s, p + |word|);
      if w > p + |word| && MatchesCI(s, w, next) then Some(w + |next|) else None
    else None
  }

  /** The start of the group when the header pattern of `kind` matches at `p`:
    *  - `(?:technical\s+)?skills?\s*:?\s*(...)`,
    *  - `technologies?\s*:?\s*(...)`,
    *  - `programming\s+languages?\s*:?\s*(...)`,
    * all ignoring case. */
  function SectionAt(s: string, kind: SectionKind, p: nat): (r: Option<nat>)
    ensures r.Some? ==> p < r.value < |s| && s[r.value] != '\n'
  {
    match kind
    case SkillsHeader =>
      var t := TwoWordsAt(s, p, "technical", "skill");
      if t.Some? then AfterKeyword(s, t.value)
      else if MatchesCI(s, p, "skill") then AfterKeyword(s, p + 5)
      else None
    case TechnologiesHeader =>
      if MatchesCI(s, p, "technologie") then AfterKeyword(s, p + 11) else None
    case LanguagesHeader =>
      var t := TwoWordsAt(s, p, "programming", "language");
      if t.Some? then AfterKeyword(s, t.value) else None
  }

  /** The next match of the header pattern of `kind` at or after `from`: the
    * bounds of its group. */
  function NextSection(s: string, kind: SectionKind, from: nat): (r: Option<(nat, nat)>)
    ensures r.Some? ==> from < r.value.0 < r.value.1 <= |s|
    ensures r.Some? ==> IsBlock(s[r.value.0..r.value.1])
  {
    match FirstMatch(|s|, from, p => SectionAt(s, kind, p))
    case None => None
    case Some((_, z)) =>
      var e := BlockEnd(s, z);
      BlockIsBlock(s, z, e);
      Some((z, e))
  }

  /** `pattern.findall(s)` from `from`: the group of each match, the search
    * resuming where the match ended. */
  function SectionsFrom(s: string, kind: SectionKind, from: nat): (r: seq<string>)
    ensures forall k :: 0 <= k < |r| ==> r[k] != ""
    decreases |s| + 1 - from
  {
    match NextSection(s, kind, from)
    case None => []
    case Some((z, e)) => [s[z..e]] + SectionsFrom(s, kind, e)
  }

  /** A section is a block of whole lines: it neither starts nor ends with
    * a newline and holds no empty line. */
  predicate IsBlock(t: string)
  {
    t != "" && t[0] != '\n' && t[|t| - 1] != '\n' && forall k :: 0 <= k < |t| - 1 ==> NoBlankAt(t, k)
  }

  /** Every section `findall` returns is such a block. */
  lemma {:induction false} SectionsAreBlocks(s: string, kind: SectionKind, from: nat)
    ensures forall k :: 0 <= k < |SectionsFrom(s, kind, from)| ==> IsBlock(SectionsFrom(s, kind, from)[k])
    decreases |s| + 1 - from
  {
    match NextSection(s, kind, from)
    case None =>
    case Some((z, e)) =>
      SectionsAreBlocks(s, kind, e);
  }

  lemma BlockIsBlock(s: string, z: nat, e: nat)
    requires z < e <= |s| && s[z] != '\n' && s[e - 1] != '\n'
    requires forall k :: z <= k < e - 1 ==> NoBlankAt(s, k)
    ensures IsBlock(s[z..e])
  {
    var t := s[z..e];
    assert t[0] == s[z] && t[|t| - 1] == s[e - 1];
    forall k | 0 <= k < |t| - 1
      ensures NoBlankAt(t, k)
    {
      assert NoBlankAt(s, z + k);
      assert t[k] == s[z + k] && t[k + 1] == s[z + k + 1];
    }
  }

  /** Every group `findall` returns for the three header patterns, pattern by
    * pattern. */
  function SkillSections(s: string): (r: seq<string>)
  {
    SectionsFrom(s, SkillsHeader, 0) + SectionsFrom(s, TechnologiesHeader, 0) + SectionsFrom(s, LanguagesHeader, 0)
  }

  // ------------------------------------------------------ re.split on runs

  /** `re.split('[...]+', s)` for the character class `sep`: the pieces
    * between maximal runs of separators, an empty piece first or last when
    * `s` starts or ends with a separator. */
  function SplitOnRuns(s: string, sep: char -> bool): (r: seq<string>)
    ensures |r| >= 1
    ensures forall k :: 0 <= k < |r| ==> forall i :: 0 <= i < |r[k]| ==> !sep(r[k][i])
    decreases |s|
  {
    var i := RunEnd(s, 0, c => !sep(c));
    if i == |s| then [s]
    else [s[..i]] + SplitOnRuns(s[RunEnd(s, i, sep)..], sep)
  }

  /** The pieces, put back together, are `s` without its separators: nothing
    * but separators is lost and nothing is reordered. */
  lemma {:induction false} SplitOnRunsKeeps(s: string, sep: char -> bool, keep: char -> bool)
    requires forall c :: keep(c) == !sep(c)
    ensures Join(SplitOnRuns(s, sep), "") == KeepChars(s, keep)
    decreases |s|
  {
    var i := RunEnd(s, 0, c => !sep(c));
    KeepCharsAll(s[..i], keep);
    if i == |s| {
      assert s[..i] == s;
    } else {
      var j := RunEnd(s, i, sep);
      var rest := SplitOnRuns(s[j..], sep);
      SplitOnRunsKeeps(s[j..], sep, keep);
      KeepCharsNone(s[i..j], keep);
      SliceThree(s, i, j);
      KeepCharsThree(s[..i], s[i..j], s[j..], keep);
      JoinEmptyCons(s[..i], rest);
    }
  }

  lemma JoinEmptyCons(a: string, rest: seq<string>)
    requires |rest| >= 1
    ensures Join([a] + rest, "") == a + Join(rest, "")
  {
    var p := [a] + rest;
    assert |p| > 1 && p[0] == a && p[1..] == rest;
    assert Join(p, "") == p[0] + "" + Join(p[1..], "");
    assert a + "" == a;
  }

  lemma SliceThree(s: string, i: nat, j: nat)
    requires i <= j <= |s|
    ensures s == s[..i] + s[i..j] + s[j..]
  {
  }

  lemma KeepCharsThree(a: string, b: string, c: string, keep: char -> bool)
    ensures KeepChars(a + b + c, keep) == KeepChars(a, keep) + KeepChars(b, keep) + KeepChars(c, keep)
  {
    KeepCharsAppend(a + b, c, keep);
    KeepCharsAppend(a, b, keep);
  }

  lemma {:induction false} KeepCharsNone(s: string, keep: char -> bool)
    requires forall i :: 0 <= i < |s| ==> !keep(s[i])
    ensures KeepChars(s, keep) == ""
    decreases |s|
  {
    if |s| > 0 {
      KeepCharsNone(s[1..], keep);
    }
  }

  lemma {:induction false} KeepCharsAppend(a: string, b: string, keep: char -> bool)
    ensures KeepChars(a + b, keep) == KeepChars(a, keep) + KeepChars(b, keep)
    decreases |a|
  {
    if |a| > 0 {
      assert (a + b)[1..] == a[1..] + b;
      KeepCharsAppend(a[1..], b, keep);
    } else {
      assert a + b == b;
    }
  }
}
