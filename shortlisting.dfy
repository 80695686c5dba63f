/** The shortlisting engine: reading candidate lines, reading required and
  * preferred skills out of a job description, and the two scoring schemes
  * of the system: skill points with a title bonus (`CandidateMatcher`), and
  * weighted skill coverage plus a Jaccard title similarity
  * (`CandidateShortlister`). Scores are exact reals. */
module Shortlisting {
  import opened Wrappers
  import opened Text
  import opened Seqs
  import opened Patterns
  import opened Sorting
  import opened PyValue
  import opened Ratios

  datatype Candidate = Candidate(
    firstName: string, lastName: string, fullName: string, linkedinUrl: string,
    email: string, company: string, position: string, connectedOn: string)

  datatype JobDescription = JobDescription(
    title: string, company: string, description: string,
    requiredSkills: seq<string>, preferredSkills: seq<string>)

  function Min(a: real, b: real): (r: real)
    ensures r <= a && r <= b && (r == a || r == b)
  {
    if a <= b then a else b
  }

  // ---------------------------------------------------- candidate lines

  /** The comma-separated fields of one line; a line holding `|` (a line
    * number prefix) contributes only what follows its first `|`. */
  function LineFields(line: string): (r: seq<string>)
    ensures |r| >= 1
  {
    FieldsOf(Strip(line))
  }

  function FieldsOf(t: string): (r: seq<string>)
    ensures |r| >= 1
  {
    if '|' in t then Split(t[IndexOf(t, '|') + 1..], ',') else Split(t, ',')
  }

  /** The candidate of a line's fields; None when the line is skipped (fewer
    * than seven fields, or an empty first name or profile URL). */
  function CandidateOf(data: seq<string>): (r: Option<Candidate>)
    ensures r.Some? <==> |data| >= 7 && Strip(data[0]) != "" && Strip(data[2]) != ""
    ensures r.Some? ==>
      r.value.firstName != "" && r.value.linkedinUrl != "" &&
      IsStripped(r.value.firstName) && IsStripped(r.value.lastName) && IsStripped(r.value.linkedinUrl) &&
      r.value.fullName == Strip(r.value.firstName + " " + r.value.lastName)
  {
    if |data| < 7 then None
    else
      var first := Strip(data[0]);
      var last := Strip(data[1]);
      var url := Strip(data[2]);
      if first == "" || url == "" then None
      else Some(Candidate(first, last, Strip(first + " " + last), url,
                          Strip(data[3]), Strip(data[4]), Strip(data[5]), Strip(data[6])))
  }

  /** One data line of the connections file as a candidate. */
  function ParseCandidateLine(line: string): (r: Option<Candidate>)
  {
    CandidateOf(LineFields(line))
  }

  /** Seven stripped, non-empty fields are taken over as they are. */
  lemma CandidateOfFields(fields: seq<string>)
    requires |fields| == 7
    requires forall f :: f in fields ==> f != "" && IsStripped(f)
    ensures CandidateOf(fields) ==
      Some(Candidate(fields[0], fields[1], Strip(fields[0] + " " + fields[1]), fields[2],
                     fields[3], fields[4], fields[5], fields[6]))
  {
    var f0, f1, f2, f3, f4, f5, f6 := fields[0], fields[1], fields[2], fields[3], fields[4], fields[5], fields[6];
    assert f0 in fields && f1 in fields && f2 in fields && f3 in fields;
    assert f4 in fields && f5 in fields && f6 in fields;
    StripOfStripped(f0);
    StripOfStripped(f1);
    StripOfStripped(f2);
    StripOfStripped(f3);
    StripOfStripped(f4);
    StripOfStripped(f5);
    StripOfStripped(f6);
  }

  /** A stripped line without `|` is split at its commas. */
  lemma LineFieldsPlain(fields: seq<string>)
    requires |fields| >= 1
    requires forall f :: f in fields ==> f != "" && IsStripped(f) && ',' !in f && '|' !in f
    ensures LineFields(Join(fields, ",")) == fields
  {
    var line := Join(fields, ",");
    JoinStripped(fields, ",");
    StripOfStripped(line);
    JoinExcludes(fields, ",", '|');
    SplitJoin(fields, ',');
  }

  lemma PrefixedStripped(prefix: string, body: string)
    requires prefix != "" && IsStripped(prefix) && body != "" && IsStripped(body)
    ensures Strip(prefix + "|" + body) == prefix + "|" + body
  {
    var line := prefix + "|" + body;
    assert line[0] == prefix[0] && line[|line| - 1] == body[|body| - 1];
    StripOfStripped(line);
  }

  lemma PrefixedBody(prefix: string, body: string)
    requires '|' !in prefix
    ensures var line := prefix + "|" + body; '|' in line && line[IndexOf(line, '|') + 1..] == body
  {
    var line := prefix + "|" + body;
    IndexOfAfter(prefix, '|', body);
    assert line[|prefix| + 1..] == body;
  }

  lemma LineFieldsAfterBar(line: string, body: string)
    requires Strip(line) == line && '|' in line && line[IndexOf(line, '|') + 1..] == body
    ensures LineFields(line) == Split(body, ',')
  {
    calc {
      LineFields(line);
      FieldsOf(Strip(line));
      FieldsOf(line);
      Split(line[IndexOf(line, '|') + 1..], ',');
      Split(body, ',');
    }
  }

  /** Of a line `prefix|body` only the body is split. */
  lemma LineFieldsPrefixed(prefix: string, fields: seq<string>)
    requires prefix != "" && IsStripped(prefix) && '|' !in prefix
    requires |fields| >= 1
    requires forall f :: f in fields ==> f != "" && IsStripped(f) && ',' !in f && '|' !in f
    ensures LineFields(prefix + "|" + Join(fields, ",")) == fields
  {
    var body := Join(fields, ",");
    JoinStripped(fields, ",");
    PrefixedStripped(prefix, body);
    PrefixedBody(prefix, body);
    LineFieldsAfterBar(prefix + "|" + body, body);
    SplitJoin(fields, ',');
  }

  /** Seven stripped, non-empty fields written as one comma-separated line are
    * read back, with or without a line-number prefix. */
  lemma ParseJoinedLine(prefix: string, fields: seq<string>)
    requires '|' !in prefix && IsStripped(prefix)
    requires |fields| == 7
    requires forall f :: f in fields ==> f != "" && IsStripped(f) && ',' !in f && '|' !in f
    ensures var line := if prefix == "" then Join(fields, ",") else prefix + "|" + Join(fields, ",");
      ParseCandidateLine(line) ==
        Some(Candidate(fields[0], fields[1], Strip(fields[0] + " " + fields[1]), fields[2],
                       fields[3], fields[4], fields[5], fields[6]))
  {
    if prefix == "" {
      LineFieldsPlain(fields);
    } else {
      LineFieldsPrefixed(prefix, fields);
    }
    CandidateOfFields(fields);
  }

  /** The candidates of `lines`, in order. */
  function ParseLines(lines: seq<string>): (r: seq<Candidate>)
    ensures |r| <= |lines|
  {
    if |lines| == 0 then [] else ParseLines(lines[..|lines| - 1]) + LineCandidates(lines[|lines| - 1])
  }

  /** What one line contributes: its candidate, or nothing when it is skipped. */
  function LineCandidates(line: string): (r: seq<Candidate>)
    ensures |r| <= 1
    ensures |r| == 1 <==> ParseCandidateLine(line).Some?
  {
    var o := ParseCandidateLine(line);
    if o.Some? then [o.value] else []
  }

  lemma ParseLinesSnoc(lines: seq<string>, i: nat)
    requires i < |lines|
    ensures ParseLines(lines[..i + 1]) == ParseLines(lines[..i]) + LineCandidates(lines[i])
  {
    assert lines[..i + 1][..i] == lines[..i];
  }

  /** Every candidate read has a first name and a profile URL. */
  lemma {:induction false} ParsedHaveNameAndUrl(lines: seq<string>)
    ensures forall c :: c in ParseLines(lines) ==> c.firstName != "" && c.linkedinUrl != ""
    decreases |lines|
  {
    if |lines| > 0 {
      var init := lines[..|lines| - 1];
      ParsedHaveNameAndUrl(init);
      var o := ParseCandidateLine(lines[|lines| - 1]);
      var last := LineCandidates(lines[|lines| - 1]);
      assert ParseLines(lines) == ParseLines(init) + last;
      forall c | c in ParseLines(init) + last
        ensures c.firstName != "" && c.linkedinUrl != ""
      {
        if c in last {
          assert o.Some? && c == o.value;
        }
      }
    }
  }

  /** The lines after the header line (`lines[1:]`). */
  function DataLines(lines: seq<string>): (r: seq<string>)
    ensures |r| == if |lines| == 0 then 0 else |lines| - 1
  {
    if |lines| == 0 then [] else lines[1..]
  }

  class CandidateProcessor {
    var candidates: seq<Candidate>

    constructor ()
      ensures candidates == []
    {
      candidates := [];
    }

    /** Reads the lines of the connections file (the first is a header). */
    method LoadCandidates(lines: seq<string>) returns (loaded: seq<Candidate>)
      modifies this
      ensures loaded == ParseLines(DataLines(lines))
      ensures candidates == loaded
    {
      var body := DataLines(lines);
      loaded := [];
      for i := 0 to |body|
        invariant loaded == ParseLines(body[..i])
      {
        ParseLinesSnoc(body, i);
        loaded := loaded + LineCandidates(body[i]);
      }
      assert body[..|body|] == body;
      candidates := loaded;
    }
  }

  // ----------------------------------------- skills of a job description

  /** The technical vocabulary both skill extractors look for. */
  const TechnicalSkills: seq<string> := [
    "python", "java", "javascript", "react", "angular", "vue", "node.js", "django",
    "flask", "spring", "docker", "kubernetes", "aws", "azure", "gcp", "terraform",
    "jenkins", "git", "sql", "postgresql", "mongodb", "redis", "elasticsearch",
    "machine learning", "ai", "data science", "tensorflow", "pytorch", "scikit-learn",
    "html", "css", "typescript", "go", "rust", "c++", "c#", ".net", "php",
    "devops", "ci/cd", "microservices", "restful api", "graphql", "agile", "scrum"]

  /** A vocabulary entry counts when it occurs in `text` and is not excluded. */
  function HitTest(text: string, exclude: seq<string>): string -> bool
  {
    s => Contains(text, s) && s !in exclude
  }

  /** The vocabulary entries found in `text`, in vocabulary order. */
  function VocabHits(text: string, exclude: seq<string>): (r: seq<string>)
    ensures Subseq(r, TechnicalSkills)
    ensures forall s :: s in r <==> s in TechnicalSkills && Contains(text, s) && s !in exclude
  {
    Filter(TechnicalSkills, HitTest(text, exclude))
  }

  /** The length of the first of `keys` spelled at `p`, trying them in order. */
  function KeyAt(s: string, keys: seq<string>, p: nat): (r: Option<nat>)
    ensures r.Some? ==> exists k | k in keys :: |k| == r.value && OccursAt(s, k, p)
    ensures r.None? ==> forall k :: k in keys ==> !OccursAt(s, k, p)
  {
    if |keys| == 0 then None
    else if OccursAt(s, keys[0], p) then Some(|keys[0]|)
    else KeyAt(s, keys[1..], p)
  }

  /** Where a lazy `(.*?)` followed by `(?:stops|$)` stops: the first position
    * from `i` on where a stop word begins or `$` matches. */
  function SectionEnd(s: string, i: nat, stops: seq<string>): (e: nat)
    requires i <= |s|
    ensures i <= e <= |s|
    ensures AtEnd(s, e) || KeyAt(s, stops, e).Some?
    ensures forall k :: i <= k < e ==> !AtEnd(s, k) && KeyAt(s, stops, k).None?
    decreases |s| - i
  {
    if AtEnd(s, i) || KeyAt(s, stops, i).Some? then i else SectionEnd(s, i + 1, stops)
  }

  /** Group 1 of `re.search(r'(?:keys).*?:(.*?)(?:stops|$)', s, re.DOTALL)`:
    * from the first keyword, the text after the next colon up to the first
    * stop word. A later keyword cannot succeed where the first one failed,
    * since it has fewer colons after it. */
  function Section(s: string, keys: seq<string>, stops: seq<string>): (r: Option<string>)
  {
    match FirstMatch(|s|, 0, p => KeyAt(s, keys, p))
    case None => None
    case Some((p, n)) =>
      match FindFrom(s, ":", p + n)
      case None => None
      case Some(c) => Some(s[c + 1..SectionEnd(s, c + 1, stops)])
  }

  lemma SliceOfSlice(s: string, lo: nat, hi: nat, j: nat, n: nat)
    requires lo <= hi <= |s| && j + n <= hi - lo
    ensures s[lo..hi][j..j + n] == s[lo + j..lo + j + n]
  {
    var a := s[lo..hi][j..j + n];
    var b := s[lo + j..lo + j + n];
    forall k | 0 <= k < n
      ensures a[k] == b[k]
    {
    }
  }

  /** An occurrence inside `s[lo..hi]` is an occurrence in `s`, within those bounds. */
  lemma OccursInside(s: string, lo: nat, hi: nat, w: string) returns (k: nat)
    requires lo <= hi <= |s| && Contains(s[lo..hi], w)
    ensures lo <= k && k + |w| <= hi && OccursAt(s, w, k)
  {
    var t := s[lo..hi];
    ContainsIff(t, w);
    var j :| OccursAt(t, w, j);
    SliceOfSlice(s, lo, hi, j, |w|);
    k := lo + j;
  }

  /** A non-empty word that begins nowhere in `[lo, hi)` does not occur in `s[lo..hi]`. */
  lemma NotInside(s: string, lo: nat, hi: nat, w: string)
    requires lo <= hi <= |s| && w != ""
    requires forall k :: lo <= k < hi ==> !OccursAt(s, w, k)
    ensures !Contains(s[lo..hi], w)
  {
    var t := s[lo..hi];
    ContainsIff(t, w);
    forall j | 0 <= j && j + |w| <= |t|
      ensures !OccursAt(t, w, j)
    {
      SliceOfSlice(s, lo, hi, j, |w|);
      assert !OccursAt(s, w, lo + j);
    }
  }

  /** Where a section lies in the text: no stop word begins inside it. */
  lemma SectionSpan(s: string, keys: seq<string>, stops: seq<string>) returns (lo: nat, hi: nat)
    requires Section(s, keys, stops).Some?
    ensures lo <= hi <= |s| && Section(s, keys, stops).value == s[lo..hi]
    ensures forall k :: lo <= k < hi ==> KeyAt(s, stops, k).None?
  {
    var m := FirstMatch(|s|, 0, p => KeyAt(s, keys, p));
    assert m.Some?;
    var (p, n) := m.value;
    var f := FindFrom(s, ":", p + n);
    assert f.Some?;
    var c := f.value;
    lo := c + 1;
    hi := SectionEnd(s, lo, stops);
    assert Section(s, keys, stops) == Some(s[lo..hi]);
  }

  /** A section never contains one of its (non-empty) stop words, and it is a piece of the text. */
  lemma SectionProperties(s: string, keys: seq<string>, stops: seq<string>)
    requires Section(s, keys, stops).Some?
    ensures forall w :: w in stops && w != "" ==> !Contains(Section(s, keys, stops).value, w)
    ensures forall w :: Contains(Section(s, keys, stops).value, w) ==> Contains(s, w)
  {
    var lo, hi := SectionSpan(s, keys, stops);
    var t := Section(s, keys, stops).value;
    forall w | w in stops && w != ""
      ensures !Contains(t, w)
    {
      forall k | lo <= k < hi
        ensures !OccursAt(s, w, k)
      {
        assert KeyAt(s, stops, k).None?;
      }
      NotInside(s, lo, hi, w);
    }
    forall w | Contains(t, w)
      ensures Contains(s, w)
    {
      var k := OccursInside(s, lo, hi, w);
      ContainsAt(s, w, k);
    }
  }

  const RequiredKeys: seq<string> := ["required"]
  const RequiredStops: seq<string> := ["preferred", "bonus", "location", "salary"]
  const PreferredKeys: seq<string> := ["preferred", "bonus"]
  const PreferredStops: seq<string> := ["location", "salary"]

  /** The vocabulary hits of an optional section. */
  function SectionHits(section: Option<string>, exclude: seq<string>): (r: seq<string>)
    ensures section.None? ==> r == []
    ensures section.Some? ==> r == VocabHits(section.value, exclude)
  {
    match section
    case None => []
    case Some(t) => VocabHits(t, exclude)
  }

  /** `JobDescriptionProcessor._extract_skills`: (required, preferred). */
  function ExtractSkills(description: string): (r: (seq<string>, seq<string>))
  {
    var d := Lower(description);
    var req := SectionHits(Section(d, RequiredKeys, RequiredStops), []);
    var pref := SectionHits(Section(d, PreferredKeys, PreferredStops), req);
    if req == [] && pref == [] then (VocabHits(d, []), []) else (req, pref)
  }

  /** Both lists are vocabulary entries in vocabulary order, found in the
    * lower-cased description; preferred never repeats a required skill. */
  lemma ExtractSkillsProperties(description: string)
    ensures Subseq(ExtractSkills(description).0, TechnicalSkills)
    ensures Subseq(ExtractSkills(description).1, TechnicalSkills)
    ensures forall s :: s in ExtractSkills(description).1 ==> s !in ExtractSkills(description).0
    ensures forall s :: s in ExtractSkills(description).0 + ExtractSkills(description).1 ==>
      Contains(Lower(description), s)
  {
    var d := Lower(description);
    var reqSection := Section(d, RequiredKeys, RequiredStops);
    var prefSection := Section(d, PreferredKeys, PreferredStops);
    if reqSection.Some? {
      SectionProperties(d, RequiredKeys, RequiredStops);
    }
    if prefSection.Some? {
      SectionProperties(d, PreferredKeys, PreferredStops);
    }
  }

  /** Without a "required ...:" or "preferred/bonus ...:" section every
    * vocabulary hit of the whole description is required. */
  lemma ExtractSkillsWithoutSections(description: string)
    requires !Contains(Lower(description), ":")
    ensures ExtractSkills(description) == (VocabHits(Lower(description), []), [])
  {
    var d := Lower(description);
    ContainsIff(d, ":");
    assert Section(d, RequiredKeys, RequiredStops).None?;
    assert Section(d, PreferredKeys, PreferredStops).None?;
  }

  // ------------------------------------------- CandidateMatcher scoring

  const MatchThreshold: real := 0.3

  /** The text a candidate's skills are looked for in: position and company, lower-cased. */
  function Profile(c: Candidate): string
  {
    Lower(c.position + " " + c.company)
  }

  /** A skill is found when its lower-cased form occurs in the profile text. */
  predicate Mentions(profile: string, skill: string)
  {
    Contains(profile, Lower(skill))
  }

  function Found(profile: string): string -> bool
  {
    s => Mentions(profile, s)
  }

  /** The skills of `skills` found in `profile`, in their order: the loop
    * shared by `get_matched_skills` and `match_candidate_to_job`. */
  method CollectFound(profile: string, skills: seq<string>) returns (matched: seq<string>)
    ensures matched == Filter(skills, Found(profile))
  {
    matched := [];
    for i := 0 to |skills|
      invariant matched == Filter(skills[..i], Found(profile))
    {
      assert skills[..i + 1][..i] == skills[..i];
      if Mentions(profile, skills[i]) {
        matched := matched + [skills[i]];
      }
    }
    assert skills[..|skills|] == skills;
  }

  /** How many of `skills` are found in `profile`: the counting loop of `calculate_match_score`. */
  method CountFound(profile: string, skills: seq<string>) returns (n: nat)
    ensures n == |Filter(skills, Found(profile))|
  {
    n := 0;
    for i := 0 to |skills|
      invariant n == |Filter(skills[..i], Found(profile))|
    {
      assert skills[..i + 1][..i] == skills[..i];
      if Mentions(profile, skills[i]) {
        n := n + 1;
      }
    }
    assert skills[..|skills|] == skills;
  }

  /** Points for the found skills: 1.0 for a required skill, 0.5 for any other. */
  function SkillPoints(skills: seq<string>, required: seq<string>, profile: string): (r: real)
    ensures 0.0 <= r <= |skills| as real
  {
    if |skills| == 0 then 0.0
    else
      SkillPoints(skills[..|skills| - 1], required, profile) + Gain(skills[|skills| - 1], required, profile)
  }

  /** What one job skill earns: 1.0 when found and required, 0.5 when found and only preferred. */
  function Gain(skill: string, required: seq<string>, profile: string): (r: real)
    ensures 0.0 <= r <= 1.0
  {
    if Mentions(profile, skill) then (if skill in required then 1.0 else 0.5) else 0.0
  }

  function MaxPoints(job: JobDescription): real
  {
    |job.requiredSkills| as real + 0.5 * |job.preferredSkills| as real
  }

  /** The skill points of a profile over the most a job can award; 0 for a job without skills. */
  function SkillScore(profile: string, job: JobDescription): (r: real)
    ensures 0.0 <= r
  {
    var maxPoints := MaxPoints(job);
    var points := SkillPoints(job.requiredSkills + job.preferredSkills, job.requiredSkills, profile);
    if maxPoints > 0.0 then RatioNonNegative(points, maxPoints); points / maxPoints else 0.0
  }

  predicate TitleBonus(c: Candidate, job: JobDescription)
  {
    CheckTitleSimilarity(c.position, job.title)
  }

  /** The skill score plus 0.2 for a shared title word, capped at 1.0. */
  function MatchScore(c: Candidate, job: JobDescription): (r: real)
    ensures 0.0 <= r <= 1.0
    ensures r == 1.0 || r == (if TitleBonus(c, job) then SkillScore(Profile(c), job) + 0.2 else SkillScore(Profile(c), job))
  {
    var normalized := SkillScore(Profile(c), job);
    Min(if TitleBonus(c, job) then normalized + 0.2 else normalized, 1.0)
  }

  datatype MatchResult = MatchResult(
    candidate: Candidate, job: JobDescription, score: real,
    matchedSkills: seq<string>, isMatch: bool)

  function MatchOf(c: Candidate, job: JobDescription): (m: MatchResult)
    ensures m.candidate == c && m.job == job
    ensures 0.0 <= m.score <= 1.0
    ensures m.isMatch <==> m.score >= MatchThreshold
    ensures Subseq(m.matchedSkills, job.requiredSkills + job.preferredSkills)
    ensures forall s :: s in m.matchedSkills <==> s in job.requiredSkills + job.preferredSkills && Mentions(Profile(c), s)
  {
    var score := MatchScore(c, job);
    MatchResult(c, job, score, Filter(job.requiredSkills + job.preferredSkills, Found(Profile(c))),
                score >= MatchThreshold)
  }

  /** The skill loop of `match_candidate_to_job`: points and found skills together. */
  method TallySkills(profile: string, all: seq<string>, required: seq<string>) returns (points: real, matched: seq<string>)
    ensures points == SkillPoints(all, required, profile)
    ensures matched == Filter(all, Found(profile))
  {
    points := 0.0;
    matched := [];
    for i := 0 to |all|
      invariant points == SkillPoints(all[..i], required, profile)
      invariant matched == Filter(all[..i], Found(profile))
    {
      assert all[..i + 1][..i] == all[..i];
      FilterSnoc(all, i, Found(profile));
      points := points + Gain(all[i], required, profile);
      if Mentions(profile, all[i]) {
        matched := matched + [all[i]];
      }
    }
    assert all[..|all|] == all;
  }

  /** `CandidateMatcher.match_candidate_to_job`. */
  method MatchCandidateToJob(c: Candidate, job: JobDescription) returns (m: MatchResult)
    ensures m == MatchOf(c, job)
  {
    var profile := Profile(c);
    var points, matched := TallySkills(profile, job.requiredSkills + job.preferredSkills, job.requiredSkills);
    var maxScore := MaxPoints(job);
    var normalized := 0.0;
    if maxScore > 0.0 {
      normalized := points / maxScore;
    }
    if CheckTitleSimilarity(c.position, job.title) {
      normalized := normalized + 0.2;
    }
    normalized := Min(normalized, 1.0);
    ScoreFromPoints(c, job, points);
    m := MatchResult(c, job, normalized, matched, normalized >= MatchThreshold);
  }

  /** The score as the method computes it from the tallied points. */
  lemma ScoreFromPoints(c: Candidate, job: JobDescription, points: real)
    requires points == SkillPoints(job.requiredSkills + job.preferredSkills, job.requiredSkills, Profile(c))
    ensures var normalized := if MaxPoints(job) > 0.0 then points / MaxPoints(job) else 0.0;
      MatchScore(c, job) == Min(if TitleBonus(c, job) then normalized + 0.2 else normalized, 1.0)
  {
  }

  lemma {:induction false} SkillPointsAppend(a: seq<string>, b: seq<string>, required: seq<string>, profile: string)
    ensures SkillPoints(a + b, required, profile) == SkillPoints(a, required, profile) + SkillPoints(b, required, profile)
    decreases |b|
  {
    if |b| == 0 {
      assert a + b == a;
    } else {
      assert (a + b)[..|a + b| - 1] == a + b[..|b| - 1];
      SkillPointsAppend(a, b[..|b| - 1], required, profile);
    }
  }

  /** Skills that are all required earn one point per found skill. */
  lemma {:induction false} SkillPointsRequired(xs: seq<string>, required: seq<string>, profile: string)
    requires forall s :: s in xs ==> s in required
    ensures SkillPoints(xs, required, profile) == |Filter(xs, Found(profile))| as real
    decreases |xs|
  {
    if |xs| > 0 {
      SkillPointsRequired(xs[..|xs| - 1], required, profile);
    }
  }

  /** Skills that are none of them required earn half a point per found skill. */
  lemma {:induction false} SkillPointsPreferred(xs: seq<string>, required: seq<string>, profile: string)
    requires forall s :: s in xs ==> s !in required
    ensures SkillPoints(xs, required, profile) == 0.5 * |Filter(xs, Found(profile))| as real
    decreases |xs|
  {
    if |xs| > 0 {
      SkillPointsPreferred(xs[..|xs| - 1], required, profile);
    }
  }

  /** When the preferred list repeats no required skill (as `ExtractSkills`
    * guarantees), the points are the found required skills plus half the
    * found preferred skills, so the skill score never exceeds 1.0. */
  lemma SkillScoreDisjoint(profile: string, job: JobDescription)
    requires forall s :: s in job.preferredSkills ==> s !in job.requiredSkills
    ensures SkillPoints(job.requiredSkills + job.preferredSkills, job.requiredSkills, profile) ==
      |Filter(job.requiredSkills, Found(profile))| as real + 0.5 * |Filter(job.preferredSkills, Found(profile))| as real
    ensures SkillScore(profile, job) <= 1.0
  {
    SkillPointsAppend(job.requiredSkills, job.preferredSkills, job.requiredSkills, profile);
    SkillPointsRequired(job.requiredSkills, job.requiredSkills, profile);
    SkillPointsPreferred(job.preferredSkills, job.requiredSkills, profile);
    var points := SkillPoints(job.requiredSkills + job.preferredSkills, job.requiredSkills, profile);
    var maxPoints := MaxPoints(job);
    if maxPoints > 0.0 {
      RatioAtMostOne(points, maxPoints);
    }
  }

  /** A profile that shows every skill of a job with disjoint lists earns
    * the full skill score, and the candidate scores 1.0. */
  lemma MatchScoreAllFound(c: Candidate, job: JobDescription)
    requires forall s :: s in job.preferredSkills ==> s !in job.requiredSkills
    requires forall s :: s in job.requiredSkills + job.preferredSkills ==> Mentions(Profile(c), s)
    requires |job.requiredSkills + job.preferredSkills| > 0
    ensures SkillScore(Profile(c), job) == 1.0
    ensures MatchScore(c, job) == 1.0
  {
    var p := Profile(c);
    SkillScoreDisjoint(p, job);
    FilterAll(job.requiredSkills, Found(p));
    FilterAll(job.preferredSkills, Found(p));
    var points := SkillPoints(job.requiredSkills + job.preferredSkills, job.requiredSkills, p);
    RatioOne(points, MaxPoints(job));
  }

  /** The matching results of the candidates that reach the threshold, in candidate order. */
  predicate IsMatched(m: MatchResult) { m.isMatch }

  /** The results of the candidates that match, in candidate order. */
  function Matches(cands: seq<Candidate>, job: JobDescription): (r: seq<MatchResult>)
    ensures |r| <= |cands|
  {
    Filter(Map(cands, c => MatchOf(c, job)), IsMatched)
  }

  lemma MatchesSnoc(cands: seq<Candidate>, job: JobDescription, i: nat)
    requires i < |cands|
    ensures var m := MatchOf(cands[i], job);
      Matches(cands[..i + 1], job) == Matches(cands[..i], job) + (if m.isMatch then [m] else [])
  {
    MapFilterSnoc(cands, i, c => MatchOf(c, job), IsMatched);
  }

  /** Every listed result is a match, and is the result of one of the candidates. */
  lemma MatchesSound(cands: seq<Candidate>, job: JobDescription)
    ensures forall m :: m in Matches(cands, job) ==> m.isMatch && m.candidate in cands && m == MatchOf(m.candidate, job)
  {
    var ms := Map(cands, c => MatchOf(c, job));
    forall x | x in Matches(cands, job)
      ensures x.isMatch && x.candidate in cands && x == MatchOf(x.candidate, job)
    {
      var i :| 0 <= i < |ms| && ms[i] == x;
      var c := cands[i];
      assert x == MatchOf(c, job);
    }
  }

  /** Every candidate that matches is listed. */
  lemma MatchesComplete(cands: seq<Candidate>, job: JobDescription)
    ensures forall c :: c in cands && MatchOf(c, job).isMatch ==> MatchOf(c, job) in Matches(cands, job)
  {
    MapFilterComplete(cands, c => MatchOf(c, job), IsMatched);
  }

  function ResultScore(m: MatchResult): real { m.score }

  /** `CandidateMatcher.get_matches_for_job`. */
  method GetMatchesForJob(cands: seq<Candidate>, job: JobDescription, topN: int) returns (r: seq<MatchResult>)
    ensures r == Take(SortDesc(Matches(cands, job), ResultScore), topN)
  {
    var matches: seq<MatchResult> := [];
    for i := 0 to |cands|
      invariant matches == Matches(cands[..i], job)
    {
      MatchesSnoc(cands, job, i);
      var m := MatchCandidateToJob(cands[i], job);
      if m.isMatch {
        matches := matches + [m];
      }
    }
    assert cands[..|cands|] == cands;
    r := Take(SortDesc(matches, ResultScore), topN);
  }

  /** Only matches, best first, at most `topN` of them; equal scores keep candidate order. */
  lemma GetMatchesProperties(cands: seq<Candidate>, job: JobDescription, topN: int)
    ensures var r := Take(SortDesc(Matches(cands, job), ResultScore), topN);
      SortedDesc(r, ResultScore) &&
      (forall m :: m in r ==> m.isMatch && m.score >= MatchThreshold && m.candidate in cands) &&
      (topN >= 0 ==> |r| <= topN)
    ensures forall k :: WithKey(SortDesc(Matches(cands, job), ResultScore), ResultScore, k) ==
                        WithKey(Matches(cands, job), ResultScore, k)
  {
    var all := Matches(cands, job);
    MatchesSound(cands, job);
    TopOf(all, ResultScore, topN);
    forall k {
      SortDescStable(all, ResultScore, k);
    }
  }

  // ------------------------------------------------ title words

  const MatcherStopWords: set<string> := {"the", "and", "or", "of", "in", "at", "to", "for", "with", "by"}
  const ShortlisterStopWords: set<string> := MatcherStopWords + {"a", "an"}

  /** The set of lower-cased whitespace-separated words of a title, less the stop words. */
  function TitleWords(title: string, stop: set<string>): set<string>
  {
    (set w | w in SplitWs(Lower(title))) - stop
  }

  /** `CandidateMatcher._check_title_similarity`: the titles share a word. */
  predicate CheckTitleSimilarity(candidateTitle: string, jobTitle: string)
  {
    |TitleWords(candidateTitle, MatcherStopWords) * TitleWords(jobTitle, MatcherStopWords)| >= 1
  }

  // ------------------------------------------ CandidateShortlister scoring

  /** The Jaccard index of the two title word sets; 0 when the job title has no words left. */
  function TitleSimilarity(candidateTitle: string, jobTitle: string): (r: real)
    ensures 0.0 <= r <= 1.0
    ensures TitleWords(jobTitle, ShortlisterStopWords) == {} ==> r == 0.0
  {
    var cw := TitleWords(candidateTitle, ShortlisterStopWords);
    var jw := TitleWords(jobTitle, ShortlisterStopWords);
    if jw == {} then 0.0
    else
      CardBounds(cw, jw);
      var n := |cw * jw| as real;
      var d := |cw + jw| as real;
      RatioAtMostOne(n, d);
      n / d
  }

  lemma CardBounds<T>(a: set<T>, b: set<T>)
    ensures |a * b| <= |a + b|
    ensures b != {} ==> |a + b| > 0
  {
    assert |a - b| + |b - a| + |a * b| == |a + b|;
    if b != {} {
      var x :| x in b;
      assert x in a + b;
    }
  }

  /** The similarity is 1 exactly when the two word sets are equal and not empty. */
  lemma TitleSimilarityOne(candidateTitle: string, jobTitle: string)
    ensures TitleSimilarity(candidateTitle, jobTitle) == 1.0 <==>
      TitleWords(jobTitle, ShortlisterStopWords) != {} &&
      TitleWords(candidateTitle, ShortlisterStopWords) == TitleWords(jobTitle, ShortlisterStopWords)
  {
    var cw := TitleWords(candidateTitle, ShortlisterStopWords);
    var jw := TitleWords(jobTitle, ShortlisterStopWords);
    if jw != {} {
      CardBounds(cw, jw);
      RatioOne(|cw * jw| as real, |cw + jw| as real);
      assert |cw - jw| + |jw - cw| + |cw * jw| == |cw + jw|;
      if |cw * jw| == |cw + jw| {
        assert cw - jw == {} && jw - cw == {};
        assert cw == jw;
      }
      if cw == jw {
        assert cw * jw == cw + jw;
      }
    }
  }

  /** A positive similarity implies the matcher's shared-word test, whose stop list is smaller. */
  lemma TitleSimilarityImpliesShared(candidateTitle: string, jobTitle: string)
    requires TitleSimilarity(candidateTitle, jobTitle) > 0.0
    ensures CheckTitleSimilarity(candidateTitle, jobTitle)
  {
    var cw := TitleWords(candidateTitle, ShortlisterStopWords);
    var jw := TitleWords(jobTitle, ShortlisterStopWords);
    CardBounds(cw, jw);
    RatioPositive(|cw * jw| as real, |cw + jw| as real);
    assert |cw * jw| > 0;
    var x :| x in cw * jw;
    assert x in TitleWords(candidateTitle, MatcherStopWords) * TitleWords(jobTitle, MatcherStopWords);
  }

  /** The fraction of the job skills found in the candidate's profile. */
  function SkillFraction(profile: string, skills: seq<string>): (r: real)
    requires |skills| > 0
    ensures 0.0 <= r <= 1.0
    ensures r == 1.0 <==> forall s :: s in skills ==> Mentions(profile, s)
  {
    var found := Filter(skills, Found(profile));
    FilterFull(skills, Found(profile));
    var n := |found| as real;
    var d := |skills| as real;
    RatioAtMostOne(n, d);
    RatioOne(n, d);
    n / d
  }

  /** 0.7 times the fraction of job skills found, plus 0.3 times the title similarity, capped at 1.0. */
  function ShortlistScore(c: Candidate, skills: seq<string>, title: string): (r: real)
    ensures 0.0 <= r <= 1.0
  {
    var skillPart := if |skills| > 0 then SkillFraction(Profile(c), skills) * 0.7 else 0.0;
    Min(skillPart + TitleSimilarity(c.position, title) * 0.3, 1.0)
  }

  /** The cap at 1.0 never binds: both terms are already bounded by their weights. */
  lemma ShortlistScoreUncapped(c: Candidate, skills: seq<string>, title: string)
    ensures ShortlistScore(c, skills, title) ==
      (if |skills| > 0 then SkillFraction(Profile(c), skills) * 0.7 else 0.0)
      + TitleSimilarity(c.position, title) * 0.3
  {
  }

  /** "go" is found in "recruiter google": matching is by substring, not by whole word. */
  lemma SubstringSkillQuirk()
    ensures Filter(["Go"], Found("recruiter google")) == ["Go"]
  {
    var p := "recruiter google";
    assert Lower("Go") == "go";
    assert OccursAt(p, "go", 10);
    ContainsAt(p, "go", 10);
    assert Found(p)("Go");
  }

  datatype ShortlistMatch = ShortlistMatch(candidate: Candidate, score: real, matchedSkills: seq<string>, jobTitle: string)

  function ShortlistScoreKey(m: ShortlistMatch): real { m.score }

  const SkillFields: seq<string> := ["skills_required", "required_skills", "skills", "technologies"]

  /** The strings of a list, or None when an item is not a string. */
  function StringItems(items: seq<Value>): (r: Option<seq<string>>)
    ensures r.Some? ==> |r.value| == |items| && forall i :: 0 <= i < |items| ==> items[i] == VStr(r.value[i])
    ensures r.None? ==> exists i :: 0 <= i < |items| && !items[i].VStr?
  {
    if |items| == 0 then Some([])
    else
      match StringItems(items[..|items| - 1])
      case None => None
      case Some(xs) =>
        if items[|items| - 1].VStr? then Some(xs + [items[|items| - 1].s]) else None
  }

  /** What one job field contributes: a list's items, or a string's words once
    * commas and semicolons are read as spaces; a falsy value or another type
    * contributes nothing. */
  function FieldSkills(v: Value): (r: Option<seq<string>>)
    ensures !Truthy(v) ==> r == Some([])
    ensures var items := FieldItems(v);
      (r.Some? ==> |r.value| == |items| && forall i :: 0 <= i < |items| ==> items[i] == VStr(r.value[i])) &&
      (r.None? ==> HasNonString(items))
  {
    if !Truthy(v) then Some([])
    else match v
      case VList(items) => StringItems(items)
      case VStr(s) => Some(SplitWs(ReplaceChar(ReplaceChar(s, ',', ' '), ';', ' ')))
      case _ => Some([])
  }

  /** The values one job field adds to the skill list: a list's items, or a
    * string's words once commas and semicolons are read as spaces; a falsy
    * value or another type adds nothing. */
  function FieldItems(v: Value): seq<Value>
  {
    if !Truthy(v) then []
    else match v
      case VList(items) => items
      case VStr(s) => WordValues(SplitWs(ReplaceChar(ReplaceChar(s, ',', ' '), ';', ' ')))
      case _ => []
  }

  function WordValues(ws: seq<string>): (r: seq<Value>)
    ensures |r| == |ws| && forall i :: 0 <= i < |ws| ==> r[i] == VStr(ws[i])
  {
    if |ws| == 0 then [] else WordValues(ws[..|ws| - 1]) + [VStr(ws[|ws| - 1])]
  }

  /** The list the source builds from the named fields, field after field,
    * whatever the types of its items. */
  function RawSkills(job: map<string, Value>, fields: seq<string>): seq<Value>
  {
    if |fields| == 0 then []
    else (if fields[0] in job then FieldItems(job[fields[0]]) else []) + RawSkills(job, fields[1..])
  }

  /** The skills of the named fields, field after field: the raw list when all
    * of its items are strings, None otherwise. */
  function CollectFields(job: map<string, Value>, fields: seq<string>): (r: Option<seq<string>>)
    ensures var raw := RawSkills(job, fields);
      (r.Some? ==> |r.value| == |raw| && forall i :: 0 <= i < |raw| ==> raw[i] == VStr(r.value[i])) &&
      (r.None? ==> HasNonString(raw))
  {
    if |fields| == 0 then Some([])
    else
      var here := if fields[0] in job then FieldSkills(job[fields[0]]) else Some([]);
      var items := if fields[0] in job then FieldItems(job[fields[0]]) else [];
      var rest := RawSkills(job, fields[1..]);
      assert RawSkills(job, fields) == items + rest;
      match here
      case None =>
        var i :| 0 <= i < |items| && !items[i].VStr?;
        assert (items + rest)[i] == items[i];
        None
      case Some(xs) =>
        match CollectFields(job, fields[1..])
        case None =>
          var i :| 0 <= i < |rest| && !rest[i].VStr?;
          assert (items + rest)[|items| + i] == rest[i];
          None
        case Some(ys) => Some(xs + ys)
  }

  /** Some item of the list is not a string. */
  predicate HasNonString(items: seq<Value>)
  {
    exists i :: 0 <= i < |items| && !items[i].VStr?
  }

  /** A Python value `set` refuses: a list or a dict. */
  predicate Unhashable(v: Value) { v.VList? || v.VDict? }

  /** Where `extract_skills_from_job` itself raises: `set` meets a list or dict
    * item, or, with no skills collected, the description is not a string. */
  predicate ExtractionRaises(job: map<string, Value>)
  {
    var raw := RawSkills(job, SkillFields);
    (exists i :: 0 <= i < |raw| && Unhashable(raw[i])) ||
    (raw == [] && "description" in job && !job["description"].VStr?)
  }

  /** `CandidateShortlister.extract_skills_from_job` over string skills: None
    * where the source raises, and where it keeps an item that is not a string. */
  function ExtractSkillsFromJob(job: map<string, Value>): (r: Option<seq<string>>)
    ensures r.Some? ==> NoDups(r.value)
    ensures ExtractionRaises(job) ==> r.None?
    ensures r.None? ==> ExtractionRaises(job) || HasNonString(RawSkills(job, SkillFields))
  {
    match CollectFields(job, SkillFields)
    case None =>
      None
    case Some(skills) =>
      if skills != [] then Some(Dedup(skills))
      else if "description" !in job then Some([])
      else match job["description"]
        case VStr(d) => Some(Dedup(VocabHits(Lower(d), [])))
        case _ => None
  }

  /** Extracted skills mean the raw list held only strings. */
  lemma AllStrings(job: map<string, Value>)
    requires ExtractSkillsFromJob(job).Some?
    ensures !ExtractionRaises(job) && !HasNonString(RawSkills(job, SkillFields))
  {
    var raw := RawSkills(job, SkillFields);
    var c := CollectFields(job, SkillFields);
    assert c.Some?;
    forall i | 0 <= i < |raw|
      ensures raw[i].VStr?
    {
      assert raw[i] == VStr(c.value[i]);
    }
  }

  /** Collected skills come back once each; without any, the vocabulary hits of
    * the lower-cased description are used. */
  lemma ExtractSkillsFromJobProperties(job: map<string, Value>)
    requires ExtractSkillsFromJob(job).Some?
    ensures CollectFields(job, SkillFields).Some?
    ensures var skills := CollectFields(job, SkillFields).value;
            var r := ExtractSkillsFromJob(job).value;
            (skills != [] ==> forall s :: s in r <==> s in skills) &&
            (skills == [] && "description" in job ==>
               forall s :: s in r <==> s in TechnicalSkills && Contains(Lower(job["description"].s), s)) &&
            (skills == [] && "description" !in job ==> r == [])
  {
  }

  /** The title used for a job; None for a present title that is not a string. */
  function JobTitle(job: map<string, Value>): (r: Option<string>)
    ensures "title" !in job ==> r == Some("Unknown Job")
  {
    if "title" !in job then Some("Unknown Job")
    else match job["title"]
      case VStr(t) => Some(t)
      case _ => None
  }

  /** The result entry of one candidate: the score, the job skills found in
    * the profile and the job title. */
  function ShortlistOf(c: Candidate, skills: seq<string>, title: string): (m: ShortlistMatch)
    ensures m.candidate == c && m.jobTitle == title
    ensures 0.0 <= m.score <= 1.0
    ensures Subseq(m.matchedSkills, skills)
    ensures forall s :: s in m.matchedSkills <==> s in skills && Mentions(Profile(c), s)
  {
    ShortlistMatch(c, ShortlistScore(c, skills, title), Filter(skills, Found(Profile(c))), title)
  }

  /** The entries of the candidates reaching `minScore`, in candidate order. */
  function Scored(cands: seq<Candidate>, skills: seq<string>, title: string, minScore: real): (r: seq<ShortlistMatch>)
    ensures forall m :: m in r ==>
      m.candidate in cands && m == ShortlistOf(m.candidate, skills, title) && m.score >= minScore
    ensures forall c :: c in cands && ShortlistOf(c, skills, title).score >= minScore ==>
      ShortlistOf(c, skills, title) in r
  {
    if |cands| == 0 then []
    else
      var m := ShortlistOf(cands[|cands| - 1], skills, title);
      Scored(cands[..|cands| - 1], skills, title, minScore) + (if m.score >= minScore then [m] else [])
  }

  /** `CandidateShortlister.find_matches_for_job` on loaded candidates; None
    * exactly where the source raises: in the skill extraction, or on scoring a
    * candidate against a skill or a title that is not a string, so without
    * candidates a non-string skill leaves the result empty. */
  function FindMatches(job: map<string, Value>, cands: seq<Candidate>, minScore: real, maxCandidates: int): (r: Option<seq<ShortlistMatch>>)
    ensures r.None? <==>
      ExtractionRaises(job) ||
      (|cands| > 0 && (HasNonString(RawSkills(job, SkillFields)) || JobTitle(job).None?))
  {
    match ExtractSkillsFromJob(job)
    case None => if ExtractionRaises(job) || |cands| > 0 then None else Some([])
    case Some(skills) =>
      AllStrings(job);
      if JobTitle(job).None? && |cands| > 0 then None
      else
        var title := JobTitle(job).GetOr("Unknown Job");
        Some(Take(SortDesc(Scored(cands, skills, title, minScore), ShortlistScoreKey), maxCandidates))
  }

  /** Only candidates reaching `minScore`, best first, at most `maxCandidates`,
    * each with the found job skills in job-skill order. */
  lemma FindMatchesProperties(job: map<string, Value>, cands: seq<Candidate>, minScore: real, maxCandidates: int)
    requires FindMatches(job, cands, minScore, maxCandidates).Some?
    ensures var r := FindMatches(job, cands, minScore, maxCandidates).value;
      SortedDesc(r, ShortlistScoreKey) &&
      (maxCandidates >= 0 ==> |r| <= maxCandidates) &&
      (ExtractSkillsFromJob(job).None? ==> r == [] && cands == []) &&
      forall m :: m in r ==>
        ExtractSkillsFromJob(job).Some? &&
        m.candidate in cands && minScore <= m.score <= 1.0 &&
        m == ShortlistOf(m.candidate, ExtractSkillsFromJob(job).value, m.jobTitle)
  {
    if ExtractSkillsFromJob(job).Some? {
      var skills := ExtractSkillsFromJob(job).value;
      var title := JobTitle(job).GetOr("Unknown Job");
      var all := Scored(cands, skills, title, minScore);
      TopOf(all, ShortlistScoreKey, maxCandidates);
    }
  }

  class CandidateShortlister {
    var candidates: seq<Candidate>

    constructor ()
      ensures candidates == []
    {
      candidates := [];
    }

    /** `calculate_match_score`. */
    method CalculateMatchScore(c: Candidate, skills: seq<string>, title: string) returns (score: real)
      ensures score == ShortlistScore(c, skills, title)
    {
      score := 0.0;
      if |skills| > 0 {
        var matched := CountFound(Profile(c), skills);
        score := score + matched as real / |skills| as real * 0.7;
      }
      score := score + TitleSimilarity(c.position, title) * 0.3;
      score := Min(score, 1.0);
    }

    /** `get_matched_skills`: the job skills found in the profile, in job-skill order. */
    method GetMatchedSkills(c: Candidate, skills: seq<string>) returns (matched: seq<string>)
      ensures matched == Filter(skills, Found(Profile(c)))
    {
      matched := CollectFound(Profile(c), skills);
    }

    /** The body of the scoring loop of `find_matches_for_job`: the entry of
      * one candidate when it reaches `minScore`. */
    method ScoreCandidate(c: Candidate, skills: seq<string>, title: string, minScore: real)
      returns (entry: seq<ShortlistMatch>)
      ensures entry == if ShortlistOf(c, skills, title).score >= minScore then [ShortlistOf(c, skills, title)] else []
    {
      entry := [];
      var score := CalculateMatchScore(c, skills, title);
      if score >= minScore {
        var matched := GetMatchedSkills(c, skills);
        entry := [ShortlistMatch(c, score, matched, title)];
      }
    }

    /** The scoring loop of `find_matches_for_job`. */
    method ScoreCandidates(cands: seq<Candidate>, skills: seq<string>, title: string, minScore: real)
      returns (matches: seq<ShortlistMatch>)
      ensures matches == Scored(cands, skills, title, minScore)
    {
      matches := [];
      for i := 0 to |cands|
        invariant matches == Scored(cands[..i], skills, title, minScore)
      {
        assert cands[..i + 1][..i] == cands[..i];
        var entry := ScoreCandidate(cands[i], skills, title, minScore);
        matches := matches + entry;
      }
      assert cands[..|cands|] == cands;
    }

    /** `find_matches_for_job`: loads the candidates from the connections file
      * lines first when none are loaded yet. */
    method FindMatchesForJob(job: map<string, Value>, minScore: real, maxCandidates: int, csvLines: seq<string>)
      returns (r: Option<seq<ShortlistMatch>>)
      modifies this
      ensures candidates == if old(candidates) == [] then ParseLines(DataLines(csvLines)) else old(candidates)
      ensures r == FindMatches(job, candidates, minScore, maxCandidates)
    {
      if candidates == [] {
        candidates := ParseLines(DataLines(csvLines));
      }
      var jobTitle := JobTitle(job);
      var extracted := ExtractSkillsFromJob(job);
      if extracted.None? {
        return if ExtractionRaises(job) || |candidates| > 0 then None else Some([]);
      }
      var skills := extracted.value;
      if jobTitle.None? && |candidates| > 0 {
        return None;
      }
      var title := jobTitle.GetOr("Unknown Job");
      var matches := ScoreCandidates(candidates, skills, title, minScore);
      r := Some(Take(SortDesc(matches, ShortlistScoreKey), maxCandidates));
    }
  }
}
