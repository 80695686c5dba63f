/** The AI content generator: choosing between the Gemini and Ollama
  * services and reading the required and preferred skills out of the
  * text a service sends back. The services themselves are oracles: the
  * model receives what each would reply. */
module AiContent {
  import opened Wrappers
  import opened Text
  import opened Seqs

  // ------------------------------------------------------ service selection

  /** What the generator found when it was set up: whether Gemini is
    * configured, whether an Ollama server answers, and its models. */
  datatype Generator = Generator(geminiAvailable: bool, ollamaAvailable: bool, ollamaModels: seq<string>)
  {
    /** `is_available`. */
    predicate IsAvailable()
    {
      geminiAvailable || ollamaAvailable
    }

    /** `get_preferred_service`: Gemini first, then Ollama, else "none". */
    function PreferredService(): (r: string)
      ensures r == "gemini" <==> geminiAvailable
      ensures r == "ollama" <==> !geminiAvailable && ollamaAvailable
      ensures r in ["gemini", "ollama", "none"]
    {
      if geminiAvailable then "gemini"
      else if ollamaAvailable then "ollama"
      else "none"
    }
  }

  /** A preferred service is named exactly when some service is available. */
  lemma PreferredIffAvailable(g: Generator)
    ensures g.PreferredService() != "none" <==> g.IsAvailable()
  {
  }

  /** Python truthiness of an optional reply: present and non-empty. */
  predicate HasContent(reply: Option<string>)
  {
    reply.Some? && reply.value != ""
  }

  /** `_generate_with_ollama`, given what the server replies for the first
    * installed model: nothing is asked when no model is installed. */
  function OllamaReply(g: Generator, reply: Option<string>): (r: Option<string>)
    ensures |g.ollamaModels| == 0 ==> r.None?
    ensures |g.ollamaModels| > 0 ==> r == reply
  {
    if |g.ollamaModels| == 0 then None else reply
  }

  /** `generate_job_description`, given what Gemini would return and what
    * the Ollama server would reply for the prompt. */
  function GenerateJobDescription(g: Generator, service: string, gemini: Option<string>, ollama: Option<string>): (r: Option<string>)
    ensures r.Some? ==> g.IsAvailable()
    ensures r.Some? ==> r == gemini || r == OllamaReply(g, ollama)
    ensures service !in ["gemini", "ollama", "auto"] ==> r.None?
  {
    if service == "gemini" && g.geminiAvailable then gemini
    else if service == "ollama" && g.ollamaAvailable then OllamaReply(g, ollama)
    else if service == "auto" then
      if g.geminiAvailable && HasContent(gemini) then gemini
      else if g.ollamaAvailable then OllamaReply(g, ollama)
      else None
    else None
  }

  /** A service asked for by name that is not available gives nothing, even
    * when the other one is available: there is no fallback. */
  lemma RequestedServiceNoFallback(g: Generator, service: string, gemini: Option<string>, ollama: Option<string>)
    requires (service == "gemini" && !g.geminiAvailable) || (service == "ollama" && !g.ollamaAvailable)
    ensures GenerateJobDescription(g, service, gemini, ollama).None?
  {
  }

  /** "auto" uses Gemini's text when Gemini is available and wrote something,
    * and otherwise what Ollama gives, if Ollama is available. */
  lemma AutoOrder(g: Generator, gemini: Option<string>, ollama: Option<string>)
    ensures g.geminiAvailable && HasContent(gemini) ==> GenerateJobDescription(g, "auto", gemini, ollama) == gemini
    ensures !(g.geminiAvailable && HasContent(gemini)) ==>
      GenerateJobDescription(g, "auto", gemini, ollama) == (if g.ollamaAvailable then OllamaReply(g, ollama) else None)
  {
  }

  /** "auto" with content always comes from the preferred service or, when
    * that one wrote nothing, from Ollama. */
  lemma AutoStartsWithPreferred(g: Generator, gemini: Option<string>, ollama: Option<string>)
    requires HasContent(GenerateJobDescription(g, "auto", gemini, ollama))
    ensures g.PreferredService() == "gemini" && HasContent(gemini) ==> GenerateJobDescription(g, "auto", gemini, ollama) == gemini
    ensures g.PreferredService() != "gemini" ==> g.PreferredService() == "ollama" && GenerateJobDescription(g, "auto", gemini, ollama) == OllamaReply(g, ollama)
  {
  }

  // ------------------------------------------------ _parse_skills_response

  /** The section a line of the reply can open. */
  datatype Section = Unsectioned | Required | Preferred

  const BulletDot: char := '\U{2022}'

  /** The section a (stripped) line opens, if it is a header. The required
    * test comes first, so a line naming both opens the required section. */
  function HeaderOf(line: string): Option<Section>
  {
    if Contains(Upper(line), "REQUIRED") then Some(Required)
    else if Contains(Upper(line), "PREFERRED") then Some(Preferred)
    else None
  }

  predicate IsBullet(line: string)
  {
    StartsWith(line, "-") || StartsWith(line, [BulletDot])
  }

  /** What a (stripped) line of the reply is to the parser. */
  datatype LineKind = Header(section: Section) | Item(skill: string) | Other

  /** The header test runs first, so a bullet naming a section is a header;
    * an item is a bullet whose text after the bullet character, stripped,
    * is not empty. */
  function Classify(line: string): (r: LineKind)
    ensures r.Item? ==> r.skill != "" && IsStripped(r.skill)
  {
    match HeaderOf(line)
    case Some(s) => Header(s)
    case None =>
      if IsBullet(line) && Strip(line[1..]) != "" then Item(Strip(line[1..])) else Other
  }

  /** Each line of the reply, stripped and classified. */
  function Kinds(lines: seq<string>): (r: seq<LineKind>)
    ensures |r| == |lines|
  {
    Map(Stripped(lines), Classify)
  }

  /** The section in effect after `kinds`, starting in `start`: the section
    * of the last header, or `start` when there is none. */
  function SectionAfter(kinds: seq<LineKind>, start: Section): (r: Section)
    ensures r != start ==> Header(r) in kinds
    decreases |kinds|
  {
    if |kinds| == 0 then start
    else
      var init := kinds[..|kinds| - 1];
      assert forall x :: x in init ==> x in kinds;
      match kinds[|kinds| - 1]
      case Header(s) => s
      case _ => SectionAfter(init, start)
  }

  /** The items of `kinds` met while `want` is the section in effect, in order. */
  function SkillsIn(kinds: seq<LineKind>, start: Section, want: Section): (r: seq<string>)
    ensures |r| <= |kinds|
    decreases |kinds|
  {
    if |kinds| == 0 then []
    else
      var init := kinds[..|kinds| - 1];
      var prev := SkillsIn(init, start, want);
      match kinds[|kinds| - 1]
      case Item(skill) => if SectionAfter(init, start) == want then prev + [skill] else prev
      case _ => prev
  }

  /** What `_parse_skills_response` returns for a reply. */
  function ParseSkills(content: string): (r: (seq<string>, seq<string>))
  {
    var kinds := Kinds(Split(Strip(content), '\n'));
    (SkillsIn(kinds, Unsectioned, Required), SkillsIn(kinds, Unsectioned, Preferred))
  }

  /** A line naming both sections opens the required one, and a bullet
    * naming a section is a header, not a skill. */
  lemma HeaderFirst(line: string)
    ensures Contains(Upper(line), "REQUIRED") ==> Classify(line) == Header(Required)
    ensures !Contains(Upper(line), "REQUIRED") && Contains(Upper(line), "PREFERRED") ==> Classify(line) == Header(Preferred)
    ensures Classify(line).Item? <==> HeaderOf(line).None? && IsBullet(line) && Strip(line[1..]) != ""
    ensures Classify(line).Item? ==> Classify(line).skill == Strip(line[1..])
  {
  }

  /** Every skill of a parsed reply is non-empty and stripped. */
  lemma ParsedSkillsClean(content: string, want: Section)
    ensures var skills := SkillsIn(Kinds(Split(Strip(content), '\n')), Unsectioned, want);
            forall k :: 0 <= k < |skills| ==> skills[k] != "" && IsStripped(skills[k])
  {
    var kinds := Kinds(Split(Strip(content), '\n'));
    assert forall i :: 0 <= i < |kinds| && kinds[i].Item? ==> kinds[i].skill != "" && IsStripped(kinds[i].skill);
    SkillsClean(kinds, want);
  }

  lemma SkillsClean(kinds: seq<LineKind>, want: Section)
    requires forall i :: 0 <= i < |kinds| && kinds[i].Item? ==> kinds[i].skill != "" && IsStripped(kinds[i].skill)
    ensures var skills := SkillsIn(kinds, Unsectioned, want);
            forall k :: 0 <= k < |skills| ==> skills[k] != "" && IsStripped(skills[k])
  {
    var skills := SkillsIn(kinds, Unsectioned, want);
    forall k | 0 <= k < |skills|
      ensures skills[k] != "" && IsStripped(skills[k])
    {
      SkillSource(kinds, Unsectioned, want, k);
    }
  }


  /** Every skill comes from an item read while its section was in effect. */
  lemma {:induction false} SkillSource(kinds: seq<LineKind>, start: Section, want: Section, k: nat)
    requires k < |SkillsIn(kinds, start, want)|
    ensures exists i :: 0 <= i < |kinds| && kinds[i] == Item(SkillsIn(kinds, start, want)[k])
                                          && SectionAfter(kinds[..i], start) == want
    decreases |kinds|
  {
    var n := |kinds| - 1;
    var init := kinds[..n];
    var prev := SkillsIn(init, start, want);
    if k < |prev| {
      SkillSource(init, start, want, k);
      var i :| 0 <= i < |init| && init[i] == Item(prev[k]) && SectionAfter(init[..i], start) == want;
      assert init[..i] == kinds[..i];
    } else {
      assert kinds[..n] == init;
    }
  }

  /** A blank line is neither a header nor a skill. */
  lemma EmptyLineIsOther()
    ensures Classify("") == Other
  {
    assert !Contains(Upper(""), "REQUIRED") && !Contains(Upper(""), "PREFERRED");
  }

  /** One more line read: a header switches the section, an item is
    * collected when its section is the one wanted, other lines change nothing. */
  lemma ScanStep(kinds: seq<LineKind>, i: nat, start: Section, want: Section)
    requires i < |kinds|
    ensures SectionAfter(kinds[..i + 1], start) == if kinds[i].Header? then kinds[i].section else SectionAfter(kinds[..i], start)
    ensures SkillsIn(kinds[..i + 1], start, want) ==
      if kinds[i].Item? && SectionAfter(kinds[..i], start) == want then SkillsIn(kinds[..i], start, want) + [kinds[i].skill]
      else SkillsIn(kinds[..i], start, want)
  {
    assert kinds[..i + 1][..i] == kinds[..i];
  }

  /** A header switches the section and adds no skill. */
  lemma HeaderSwitches(kinds: seq<LineKind>, s: Section, start: Section, want: Section)
    ensures SectionAfter(kinds + [Header(s)], start) == s
    ensures SkillsIn(kinds + [Header(s)], start, want) == SkillsIn(kinds, start, want)
  {
    assert (kinds + [Header(s)])[..|kinds|] == kinds;
  }

  /** Reading `a` and then `b` ends where reading `b` from `a`'s end does. */
  lemma {:induction false} SectionAppend(a: seq<LineKind>, b: seq<LineKind>, start: Section)
    ensures SectionAfter(a + b, start) == SectionAfter(b, SectionAfter(a, start))
    decreases |b|
  {
    if |b| == 0 {
      assert a + b == a;
    } else {
      var init := b[..|b| - 1];
      assert (a + b)[..|a + b| - 1] == a + init;
      SectionAppend(a, init, start);
    }
  }

  /** The skills of `a + b` are those of `a` followed by those of `b` read
    * from the section `a` ends in. */
  lemma {:induction false} SkillsAppend(a: seq<LineKind>, b: seq<LineKind>, start: Section, want: Section)
    ensures SkillsIn(a + b, start, want) == SkillsIn(a, start, want) + SkillsIn(b, SectionAfter(a, start), want)
    decreases |b|
  {
    if |b| == 0 {
      assert a + b == a;
    } else {
      var init := b[..|b| - 1];
      assert (a + b)[..|a + b| - 1] == a + init;
      SkillsAppend(a, init, start, want);
      SectionAppend(a, init, start);
    }
  }

  /** Lines without a header keep the section and, outside a section, add
    * no skill. */
  lemma {:induction false} HeaderlessLines(kinds: seq<LineKind>, want: Section)
    requires forall i :: 0 <= i < |kinds| ==> !kinds[i].Header?
    ensures SectionAfter(kinds, Unsectioned) == Unsectioned
    ensures want != Unsectioned ==> SkillsIn(kinds, Unsectioned, want) == []
    decreases |kinds|
  {
    if |kinds| > 0 {
      var init := kinds[..|kinds| - 1];
      assert forall i :: 0 <= i < |init| ==> init[i] == kinds[i];
      HeaderlessLines(init, want);
    }
  }

  /** Bullets before the first header are ignored. */
  lemma LeadingBulletsIgnored(pre: seq<LineKind>, rest: seq<LineKind>, want: Section)
    requires forall i :: 0 <= i < |pre| ==> !pre[i].Header?
    requires want != Unsectioned
    ensures SkillsIn(pre + rest, Unsectioned, want) == SkillsIn(rest, Unsectioned, want)
  {
    HeaderlessLines(pre, want);
    SkillsAppend(pre, rest, Unsectioned, want);
  }

  // ----------------------------------------- the reply format of the prompt

  /** A skill the reply format can carry unchanged: one stripped line that
    * names neither section. */
  predicate PlainSkill(s: string)
  {
    s != "" && IsStripped(s) && '\n' !in s && HeaderOf(s).None?
  }

  /** Each skill as a "- " bullet line. */
  function Bulleted(xs: seq<string>): (r: seq<string>)
    ensures |r| == |xs|
    ensures forall k :: 0 <= k < |xs| ==> r[k] == "- " + xs[k]
  {
    seq(|xs|, k requires 0 <= k < |xs| => "- " + xs[k])
  }

  function Items(xs: seq<string>): (r: seq<LineKind>)
    ensures |r| == |xs|
    ensures forall k :: 0 <= k < |xs| ==> r[k] == Item(xs[k])
  {
    seq(|xs|, k requires 0 <= k < |xs| => Item(xs[k]))
  }

  /** The reply layout the prompt asks for. */
  function SkillsReply(required: seq<string>, preferred: seq<string>): string
  {
    Reply("REQUIRED:", "PREFERRED:", required, preferred)
  }

  /** The lines of a reply under the header lines `hr` and `hp`. */
  function ReplyLines(hr: string, hp: string, required: seq<string>, preferred: seq<string>): seq<string>
  {
    [hr] + Bulleted(required) + [hp] + Bulleted(preferred)
  }

  function Reply(hr: string, hp: string, required: seq<string>, preferred: seq<string>): string
  {
    Join(ReplyLines(hr, hp, required, preferred), "\n")
  }

  /** What the round trip asks of the header lines. */
  predicate HeaderLine(h: string, s: Section)
  {
    h != "" && IsStripped(h) && '\n' !in h && Classify(h) == Header(s)
  }

  /** A header line of the layout opens its section. */
  lemma HeaderLines()
    ensures HeaderLine("REQUIRED:", Required) && HeaderLine("PREFERRED:", Preferred)
  {
    var r, p := HeaderWords();
    HeaderLinesStripped();
  }

  /** The two header lines as the section tests see them. */
  lemma HeaderWords() returns (r: string, p: string)
    ensures r == "REQUIRED:" && p == "PREFERRED:"
    ensures HeaderOf(r) == Some(Required) && HeaderOf(p) == Some(Preferred)
  {
    r, p := "REQUIRED:", "PREFERRED:";
    UpperHeaderWords();
    RequiredOpens();
    PreferredLacksRequired();
    PreferredOpens();
  }

  lemma RequiredOpens()
    ensures Contains("REQUIRED:", "REQUIRED")
  {
    assert StartsWith("REQUIRED:", "REQUIRED");
  }

  lemma PreferredOpens()
    ensures Contains("PREFERRED:", "PREFERRED")
  {
    assert StartsWith("PREFERRED:", "PREFERRED");
  }

  lemma HeaderLinesStripped()
    ensures IsStripped("REQUIRED:") && IsStripped("PREFERRED:")
    ensures '\n' !in "REQUIRED:" && '\n' !in "PREFERRED:"
  {
  }

  lemma UpperHeaderWords()
    ensures Upper("REQUIRED:") == "REQUIRED:" && Upper("PREFERRED:") == "PREFERRED:"
  {
    var r, p := "REQUIRED:", "PREFERRED:";
    assert forall i :: 0 <= i < |r| ==> 'A' <= r[i] <= 'Z' || r[i] == ':';
    assert forall i :: 0 <= i < |p| ==> 'A' <= p[i] <= 'Z' || p[i] == ':';
    UpperOfUncased(r);
    UpperOfUncased(p);
  }

  lemma PreferredLacksRequired()
    ensures !Contains("PREFERRED:", "REQUIRED")
  {
    var p, w := "PREFERRED:", "REQUIRED";
    ContainsIff(p, w);
    forall i | 0 <= i
      ensures !OccursAt(p, w, i)
    {
      if i == 0 {
        assert p[0] != w[0];
      } else if i == 1 {
        assert p[3] != w[2];
      } else if i == 2 {
        assert p[2] != w[0];
      }
    }
  }

  /** The bullet line of a plain skill is stripped, is no header and names the skill. */
  lemma BulletLine(x: string)
    requires PlainSkill(x)
    ensures var line := "- " + x; Strip(line) == line && line != "" && IsStripped(line) && '\n' !in line
    ensures Classify("- " + x) == Item(x)
  {
    BulletStripped(x);
    BulletNoHeader(x);
    BulletItem(x);
  }

  lemma BulletItem(x: string)
    requires PlainSkill(x) && HeaderOf("- " + x).None?
    ensures Classify("- " + x) == Item(x)
  {
    var line := "- " + x;
    assert line[..1] == "-";
    assert line[1..] == " " + x;
    StripSpacePrefix(x);
  }

  lemma BulletStripped(x: string)
    requires PlainSkill(x)
    ensures var line := "- " + x; Strip(line) == line && line != "" && IsStripped(line) && '\n' !in line
  {
    var line := "- " + x;
    assert line[0] == '-' && line[|line| - 1] == x[|x| - 1];
    StripOfStripped(line);
  }

  /** The bullet line of a plain skill names no section. */
  lemma BulletNoHeader(x: string)
    requires PlainSkill(x)
    ensures HeaderOf("- " + x).None?
  {
    var u := DashSpace();
    var line := u + x;
    UpperAppend(u, x);
    if Contains(Upper(line), "REQUIRED") {
      ContainsPastPrefix(u, Upper(x), "REQUIRED");
    }
    if Contains(Upper(line), "PREFERRED") {
      ContainsPastPrefix(u, Upper(x), "PREFERRED");
    }
  }


  /** The bullet prefix: it has no upper-case form of its own and holds no
    * letter a section word starts with. */
  lemma DashSpace() returns (u: string)
    ensures u == "- " && Upper(u) == u && 'R' !in u && 'P' !in u
  {
    u := "- ";
    UpperOfUncased(u);
  }

  /** Items keep the section and are collected exactly when that section is
    * the one wanted. */
  lemma {:induction false} ItemsUnder(xs: seq<string>, s: Section, want: Section)
    ensures SectionAfter(Items(xs), s) == s
    ensures SkillsIn(Items(xs), s, want) == if s == want then xs else []
    decreases |xs|
  {
    if |xs| > 0 {
      var n := |xs| - 1;
      assert Items(xs)[..n] == Items(xs[..n]);
      ItemsUnder(xs[..n], s, want);
      assert xs[..n] + [xs[n]] == xs;
    }
  }

  /** The bullet lines of plain skills are stripped, non-empty, hold no line
    * break and classify as the items of those skills. */
  lemma BulletedLines(xs: seq<string>)
    requires forall k :: 0 <= k < |xs| ==> PlainSkill(xs[k])
    ensures forall p :: p in Bulleted(xs) ==> p != "" && IsStripped(p) && '\n' !in p
    ensures Map(Bulleted(xs), Classify) == Items(xs)
  {
    var lines := Bulleted(xs);
    forall k | 0 <= k < |xs|
      ensures lines[k] != "" && IsStripped(lines[k]) && '\n' !in lines[k]
      ensures Map(lines, Classify)[k] == Item(xs[k])
    {
      BulletLine(xs[k]);
    }
  }

  /** The lines of a reply layout are stripped, non-empty and hold no line break. */
  lemma ReplyLinesClean(hr: string, hp: string, required: seq<string>, preferred: seq<string>)
    requires HeaderLine(hr, Required) && HeaderLine(hp, Preferred)
    requires forall k :: 0 <= k < |required| ==> PlainSkill(required[k])
    requires forall k :: 0 <= k < |preferred| ==> PlainSkill(preferred[k])
    ensures forall p :: p in ReplyLines(hr, hp, required, preferred) ==> p != "" && IsStripped(p) && '\n' !in p
  {
    var a, b, c, d := [hr], Bulleted(required), [hp], Bulleted(preferred);
    BulletedLines(required);
    BulletedLines(preferred);
    forall q | q in a + b + c + d
      ensures q != "" && IsStripped(q) && '\n' !in q
    {
      assert q in a || q in b || q in c || q in d;
    }
  }

  /** The lines of a reply layout classify as two headers, each followed by its items. */
  lemma ReplyKinds(hr: string, hp: string, required: seq<string>, preferred: seq<string>)
    requires HeaderLine(hr, Required) && HeaderLine(hp, Preferred)
    requires forall k :: 0 <= k < |required| ==> PlainSkill(required[k])
    requires forall k :: 0 <= k < |preferred| ==> PlainSkill(preferred[k])
    ensures Kinds(ReplyLines(hr, hp, required, preferred))
         == [Header(Required)] + Items(required) + [Header(Preferred)] + Items(preferred)
  {
    var a, b, c, d := [hr], Bulleted(required), [hp], Bulleted(preferred);
    ReplyLinesClean(hr, hp, required, preferred);
    StrippedNoop(a + b + c + d);
    assert Kinds(ReplyLines(hr, hp, required, preferred)) == Map(a + b + c + d, Classify);
    MapSingle(hr, Classify);
    MapSingle(hp, Classify);
    BulletedLines(required);
    BulletedLines(preferred);
    MapAppend(a, b, Classify);
    MapAppend(a + b, c, Classify);
    MapAppend(a + b + c, d, Classify);
  }

  /** A reply layout splits back into its lines. */
  lemma ReplySplits(hr: string, hp: string, required: seq<string>, preferred: seq<string>)
    requires HeaderLine(hr, Required) && HeaderLine(hp, Preferred)
    requires forall k :: 0 <= k < |required| ==> PlainSkill(required[k])
    requires forall k :: 0 <= k < |preferred| ==> PlainSkill(preferred[k])
    ensures Split(Strip(Reply(hr, hp, required, preferred)), '\n') == ReplyLines(hr, hp, required, preferred)
  {
    var lines := ReplyLines(hr, hp, required, preferred);
    ReplyLinesClean(hr, hp, required, preferred);
    JoinStripped(lines, "\n");
    StripOfStripped(Reply(hr, hp, required, preferred));
    SplitJoin(lines, '\n');
  }

  /** Two headers, each followed by its items, give back the items of each. */
  lemma LayoutSkills(required: seq<string>, preferred: seq<string>, want: Section)
    requires want == Required || want == Preferred
    ensures SkillsIn([Header(Required)] + Items(required) + [Header(Preferred)] + Items(preferred), Unsectioned, want)
         == if want == Required then required else preferred
  {
    var a, b, c, d := [Header(Required)], Items(required), [Header(Preferred)], Items(preferred);
    HeaderSwitches([], Required, Unsectioned, want);
    assert [] + a == a;
    ItemsUnder(required, Required, want);
    SkillsAppend(a, b, Unsectioned, want);
    SectionAppend(a, b, Unsectioned);
    HeaderSwitches(a + b, Preferred, Unsectioned, want);
    ItemsUnder(preferred, Preferred, want);
    SkillsAppend(a + b + c, d, Unsectioned, want);
  }

  /** A reply laid out under any two header lines reads back as the two
    * lists it was written from. */
  lemma ReplyRoundTrip(hr: string, hp: string, required: seq<string>, preferred: seq<string>)
    requires HeaderLine(hr, Required) && HeaderLine(hp, Preferred)
    requires forall k :: 0 <= k < |required| ==> PlainSkill(required[k])
    requires forall k :: 0 <= k < |preferred| ==> PlainSkill(preferred[k])
    ensures ParseSkills(Reply(hr, hp, required, preferred)) == (required, preferred)
  {
    ReplySplits(hr, hp, required, preferred);
    ReplyKinds(hr, hp, required, preferred);
    LayoutSkills(required, preferred, Required);
    LayoutSkills(required, preferred, Preferred);
  }

  /** A reply in the layout the prompt asks for reads back as the two lists
    * it was written from. */
  lemma SkillsRoundTrip(required: seq<string>, preferred: seq<string>)
    requires forall k :: 0 <= k < |required| ==> PlainSkill(required[k])
    requires forall k :: 0 <= k < |preferred| ==> PlainSkill(preferred[k])
    ensures ParseSkills(SkillsReply(required, preferred)) == (required, preferred)
  {
    HeaderLines();
    ReplyRoundTrip("REQUIRED:", "PREFERRED:", required, preferred);
  }

  /** `_parse_skills_response`: a pass over the stripped reply's lines with
    * the current section as state. */
  method ParseSkillsResponse(content: string) returns (required: seq<string>, preferred: seq<string>)
    ensures (required, preferred) == ParseSkills(content)
  {
    required, preferred := ScanReply(Split(Strip(content), '\n'));
  }

  /** The loop of `_parse_skills_response` over the lines of the reply. */
  method ScanReply(lines: seq<string>) returns (required: seq<string>, preferred: seq<string>)
    ensures required == SkillsIn(Kinds(lines), Unsectioned, Required)
    ensures preferred == SkillsIn(Kinds(lines), Unsectioned, Preferred)
  {
    ghost var kinds := Kinds(lines);
    required, preferred := [], [];
    var current := Unsectioned;
    for i := 0 to |lines|
      invariant current == SectionAfter(kinds[..i], Unsectioned)
      invariant required == SkillsIn(kinds[..i], Unsectioned, Required)
      invariant preferred == SkillsIn(kinds[..i], Unsectioned, Preferred)
    {
      ScanStep(kinds, i, Unsectioned, Required);
      ScanStep(kinds, i, Unsectioned, Preferred);
      StrippedAt(lines, i);
      var kind := ClassifyLine(Strip(lines[i]));
      match kind
      case Header(section) =>
        current := section;
      case Item(skill) =>
        if current == Required {
          required := required + [skill];
        } else if current == Preferred {
          preferred := preferred + [skill];
        }
      case Other =>
    }
    assert kinds[..|lines|] == kinds;
  }

  /** The tests the loop of `_parse_skills_response` applies to one stripped
    * line, in their order. */
  method ClassifyLine(line: string) returns (kind: LineKind)
    ensures kind == Classify(line)
  {
    if line == "" {
      EmptyLineIsOther();
      return Other;
    }
    if Contains(Upper(line), "REQUIRED") {
      return Header(Required);
    } else if Contains(Upper(line), "PREFERRED") {
      return Header(Preferred);
    } else if StartsWith(line, "-") || StartsWith(line, [BulletDot]) {
      var skill := Strip(line[1..]);
      kind := if skill != "" then Item(skill) else Other;
    } else {
      kind := Other;
    }
  }


  // --------------------------------------------------------- generate_skills

  /** `generate_skills`: the service text picked as `generate_job_description`
    * picks it, read as two skill lists; nothing when no service wrote text. */
  method GenerateSkills(g: Generator, service: string, gemini: Option<string>, ollama: Option<string>)
    returns (r: Option<(seq<string>, seq<string>)>)
    ensures r.None? <==> !HasContent(GenerateJobDescription(g, service, gemini, ollama))
    ensures r.Some? ==> r.value == ParseSkills(GenerateJobDescription(g, service, gemini, ollama).value)
  {
    var content: Option<string> := None;
    if service == "gemini" && g.geminiAvailable {
      content := gemini;
    } else if service == "ollama" && g.ollamaAvailable {
      content := OllamaReply(g, ollama);
    } else if service == "auto" {
      if g.geminiAvailable {
        content := gemini;
      }
      if !HasContent(content) && g.ollamaAvailable {
        content := OllamaReply(g, ollama);
      }
    }
    if HasContent(content) {
      var required, preferred := ParseSkillsResponse(content.value);
      r := Some((required, preferred));
    } else {
      r := None;
    }
  }
}
