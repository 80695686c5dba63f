/** The rule-based parts of the recruitment agent (`src/hr_agent.py`): the
  * fallback match score and job-description analysis used when the AI
  * services fail, the mock candidate search, and the campaign, sending,
  * reporting and pipeline loops over the store. Replies of the AI services
  * are oracle parameters; the store is an `HRDatabase` object. */
module HrAgent {
  import opened Wrappers
  import opened Text
  import opened Seqs
  import opened Ratios
  import opened HrStore
  import Shortlisting

  // ------------------------------------------------- fallback match score

  /** A candidate of the search pool (the dictionaries of `MockLinkedInAPI`). */
  datatype PoolCandidate = PoolCandidate(
    name: string, email: string, linkedinUrl: string, skills: seq<string>,
    experienceYears: int, location: string, summary: string)

  /** `set(s.lower() for s in xs)`. */
  function LowerSet(xs: seq<string>): (r: set<string>)
    ensures r == {} <==> xs == []
    ensures forall s :: s in xs ==> Lower(s) in r
  {
    var r := set s | s in xs :: Lower(s);
    assert xs != [] ==> Lower(xs[0]) in r;
    r
  }

  lemma SharedAtMost<T>(a: set<T>, b: set<T>)
    ensures |a * b| <= |b|
    ensures |a * b| == |b| <==> b <= a
  {
    assert b == (b - a) + (a * b);
    assert |b| == |b - a| + |a * b|;
  }

  /** The skill half of the fallback score: half the share of the required
    * skills (compared as lower-case sets) that the candidate has, and nothing
    * when no skill is required. */
  function SkillTerm(candidateSkills: seq<string>, requiredSkills: seq<string>): (r: real)
    ensures 0.0 <= r <= 0.5
    ensures requiredSkills == [] ==> r == 0.0
    ensures requiredSkills != [] ==> (r == 0.5 <==> LowerSet(requiredSkills) <= LowerSet(candidateSkills))
    ensures r == 0.0 <==> LowerSet(candidateSkills) * LowerSet(requiredSkills) == {}
  {
    var required := LowerSet(requiredSkills);
    if required == {} then 0.0
    else
      var shared := LowerSet(candidateSkills) * required;
      var n := |shared| as real;
      var d := |required| as real;
      SharedAtMost(LowerSet(candidateSkills), required);
      RatioAtMostOne(n, d);
      RatioOne(n, d);
      RatioPositive(n, d);
      n / d * 0.5
  }

  /** The experience levels and the years that fit them. */
  predicate ExperienceFits(level: string, years: int)
  {
    var l := Lower(level);
    (l == "entry" && years <= 2) || (l == "mid" && 2 <= years <= 7) ||
    (l == "senior" && years >= 5) || (l == "executive" && years >= 10)
  }

  /** 0.3 for a fitting experience, 0.1 (a partial match) otherwise. */
  function ExperienceTerm(level: string, years: int): (r: real)
    ensures r == 0.3 <==> ExperienceFits(level, years)
    ensures r == 0.3 || r == 0.1
  {
    if ExperienceFits(level, years) then 0.3 else 0.1
  }

  /** 0.2 when either side mentions "remote" or one lower-cased location
    * contains the other, 0.05 otherwise; an empty candidate location is
    * contained in every job location and so always earns 0.2. */
  function LocationTerm(candidateLocation: string, jobLocation: string): (r: real)
    ensures r == 0.2 || r == 0.05
    ensures r == 0.2 <==>
      Contains(Lower(jobLocation), "remote") || Contains(Lower(candidateLocation), "remote") ||
      Contains(Lower(jobLocation), Lower(candidateLocation)) || Contains(Lower(candidateLocation), Lower(jobLocation))
    ensures candidateLocation == "" ==> r == 0.2
  {
    var c := Lower(candidateLocation);
    var j := Lower(jobLocation);
    ContainsEmpty(j);
    if Contains(j, "remote") || Contains(c, "remote") then 0.2
    else if Contains(j, c) || Contains(c, j) then 0.2
    else 0.05
  }

  /** `_calculate_match_score_fallback`: skills (50%), experience (30%) and
    * location (20%), capped at 1. */
  function FallbackScore(c: PoolCandidate, job: Job): (r: real)
    ensures 0.15 <= r <= 1.0
    ensures r == 1.0 <==>
      SkillTerm(c.skills, job.requiredSkills) + ExperienceTerm(job.experienceLevel, c.experienceYears) +
      LocationTerm(c.location, job.location) >= 1.0
  {
    Shortlisting.Min(SkillTerm(c.skills, job.requiredSkills) + ExperienceTerm(job.experienceLevel, c.experienceYears) +
                     LocationTerm(c.location, job.location), 1.0)
  }

  /** A candidate with every required skill, a fitting experience and a
    * compatible location scores the full 1.0. */
  lemma FallbackScoreFull(c: PoolCandidate, job: Job)
    requires job.requiredSkills != [] && LowerSet(job.requiredSkills) <= LowerSet(c.skills)
    requires ExperienceFits(job.experienceLevel, c.experienceYears)
    requires LocationTerm(c.location, job.location) == 0.2
    ensures FallbackScore(c, job) == 1.0
  {
  }

  method CalculateMatchScoreFallback(c: PoolCandidate, job: Job) returns (score: real)
    ensures score == FallbackScore(c, job)
    ensures 0.15 <= score <= 1.0
  {
    score := 0.0;
    var candidateSkills := LowerSet(c.skills);
    var required := LowerSet(job.requiredSkills);
    if required != {} {
      var overlap := |candidateSkills * required| as real / |required| as real;
      score := score + overlap * 0.5;
    }
    assert score == SkillTerm(c.skills, job.requiredSkills);
    ghost var skill := score;
    var level := Lower(job.experienceLevel);
    var years := c.experienceYears;
    if level == "entry" && years <= 2 {
      score := score + 0.3;
    } else if level == "mid" && 2 <= years <= 7 {
      score := score + 0.3;
    } else if level == "senior" && years >= 5 {
      score := score + 0.3;
    } else if level == "executive" && years >= 10 {
      score := score + 0.3;
    } else {
      score := score + 0.1;
    }
    assert score == skill + ExperienceTerm(job.experienceLevel, c.experienceYears);
    var candidateLocation := Lower(c.location);
    var jobLocation := Lower(job.location);
    if Contains(jobLocation, "remote") || Contains(candidateLocation, "remote") {
      score := score + 0.2;
    } else if Contains(jobLocation, candidateLocation) || Contains(candidateLocation, jobLocation) {
      score := score + 0.2;
    } else {
      score := score + 0.05;
    }
    score := Shortlisting.Min(score, 1.0);
  }

  /** `_get_min_experience`. */
  function MinExperience(level: string): (years: nat)
    ensures years in {0, 2, 5, 10}
    ensures years > 0 <==> Lower(level) in {"mid", "senior", "executive"}
  {
    var l := Lower(level);
    if l == "entry" then 0
    else if l == "mid" then 2
    else if l == "senior" then 5
    else if l == "executive" then 10
    else 0
  }

  /** The search floor agrees with the experience fit: for a senior or
    * executive role a candidate fits exactly when at or above the floor; for
    * a mid role fitting needs the floor and at most 7 years. */
  lemma MinExperienceFits(level: string, years: int)
    ensures Lower(level) in {"senior", "executive"} ==> (ExperienceFits(level, years) <==> years >= MinExperience(level))
    ensures Lower(level) == "mid" ==> (ExperienceFits(level, years) <==> MinExperience(level) <= years <= 7)
  {
  }

  // ------------------------------------------- job-description fallback

  const JdKeywords: seq<string> :=
    ["python", "java", "javascript", "react", "node.js", "sql", "aws", "docker", "kubernetes"]

  datatype JdAnalysis = JdAnalysis(
    title: string, company: string, requiredSkills: seq<string>, preferredSkills: seq<string>,
    experienceLevel: string, location: string, salaryRange: string,
    keyResponsibilities: seq<string>, qualifications: seq<string>)

  /** `skill.lower() in job_description.lower()`; the keywords are already
    * lower-case, so `skill.lower()` is the keyword itself. */
  function InDescription(jd: string): string -> bool
  {
    (k: string) => Contains(Lower(jd), k)
  }

  /** `_fallback_jd_analysis`: the keywords that occur (as plain substrings,
    * ignoring case) in the description, with fixed defaults elsewhere. */
  function FallbackJdAnalysis(jd: string): (r: JdAnalysis)
    ensures forall k :: k in r.requiredSkills <==> k in JdKeywords && Contains(Lower(jd), k)
    ensures Subseq(r.requiredSkills, JdKeywords)
    ensures r.title == "Software Developer" && r.company == "Not specified" && r.preferredSkills == []
    ensures r.experienceLevel == "Mid" && r.location == "Remote"
  {
    JdAnalysis("Software Developer", "Not specified", Filter(JdKeywords, InDescription(jd)), [],
               "Mid", "Remote", "Not specified", ["Software development"], ["Bachelor's degree"])
  }

  /** Plain substring matching: any description that mentions JavaScript
    * also yields "java". */
  lemma JavaInJavaScript(jd: string)
    requires Contains(Lower(jd), "javascript")
    ensures "java" in FallbackJdAnalysis(jd).requiredSkills
  {
    var s := Lower(jd);
    ContainsIff(s, "javascript");
    var i :| OccursAt(s, "javascript", i);
    assert s[i..i + 4] == s[i..i + 10][..4];
    ContainsAt(s, "java", i);
    assert "java" in JdKeywords;
  }

  /** The reply of the job-description analysis with a Markdown code fence
    * cut off: `content[7:-3]` after "```json", `content[3:-3]` after "```". */
  function StripFence(reply: string): (r: string)
    ensures !StartsWith(Strip(reply), "```") ==> r == Strip(reply)
    ensures |r| <= |Strip(reply)|
  {
    var content := Strip(reply);
    if StartsWith(content, "```json") then Slice(content, 7, -3)
    else if StartsWith(content, "```") then Slice(content, 3, -3)
    else content
  }

  /** A fenced JSON reply gives back exactly its body. */
  lemma FencedJsonBody(body: string)
    ensures StripFence("```json" + body + "```") == body
  {
    var s := "```json" + body + "```";
    assert s[0] == '`' && s[|s| - 1] == '`';
    StripOfStripped(s);
    assert s[..7] == "```json";
    assert s[7..|s| - 3] == body;
  }

  /** So does a bare fence, unless the body itself starts with "json". */
  lemma FencedBody(body: string)
    requires !StartsWith(body, "json")
    ensures StripFence("```" + body + "```") == body
  {
    var s := "```" + body + "```";
    assert s[0] == '`' && s[|s| - 1] == '`';
    StripOfStripped(s);
    assert s[..3] == "```";
    assert !StartsWith(s, "```json") by {
      if |body| >= 4 {
        assert s[3..7] == body[..4];
      } else {
        assert s[3 + |body|] == '`';
      }
    }
    assert s[3..|s| - 3] == body;
  }

  /** `analyze_job_description`: the fence-stripped reply when it decodes to
    * an analysis, the fallback when there is no reply or it does not decode. */
  function AnalyzeJobDescription(jd: string, reply: Option<string>, decode: string -> Option<JdAnalysis>): (r: JdAnalysis)
    ensures r == FallbackJdAnalysis(jd) || (reply.Some? && decode(StripFence(reply.value)) == Some(r))
    ensures reply.None? ==> r == FallbackJdAnalysis(jd)
  {
    if reply.None? then FallbackJdAnalysis(jd)
    else match decode(StripFence(reply.value))
      case Some(a) => a
      case None => FallbackJdAnalysis(jd)
  }

  // ----------------------------------------------------- candidate search

  /** A skill lower-cased, with spaces, hyphens and underscores removed. */
  function Squash(skill: string): (r: string)
    ensures forall c :: c in r ==> c != ' ' && c != '-' && c != '_'
  {
    RemoveChars(Lower(skill), {' ', '-', '_'})
  }

  /** One side contains the other once squashed, or one of the three
    * special cases (microservice, postgresql/postgres, javascript/js). */
  predicate SkillHit(required: string, candidate: string)
  {
    var r := Squash(required);
    var c := Squash(candidate);
    Contains(c, r) || Contains(r, c) ||
    (Contains(r, "microservice") && Contains(c, "microservice")) ||
    (Contains(r, "postgresql") && Contains(c, "postgres")) ||
    (Contains(r, "javascript") && Contains(c, "js"))
  }

  predicate HasHit(required: string, candidateSkills: seq<string>)
  {
    exists k :: 0 <= k < |candidateSkills| && SkillHit(required, candidateSkills[k])
  }

  function HitIn(candidateSkills: seq<string>): string -> bool
  {
    (r: string) => HasHit(r, candidateSkills)
  }

  /** `skill_matches`: the required skills with a hit among the candidate's. */
  function SkillMatches(required: seq<string>, candidateSkills: seq<string>): (n: nat)
    ensures n <= |required|
    ensures n > 0 <==> exists i, k :: 0 <= i < |required| && 0 <= k < |candidateSkills| &&
                                    SkillHit(required[i], candidateSkills[k])
  {
    var hits := Filter(required, HitIn(candidateSkills));
    assert |hits| > 0 ==> hits[0] in hits;
    assert (exists i, k :: 0 <= i < |required| && 0 <= k < |candidateSkills| &&
                           SkillHit(required[i], candidateSkills[k])) ==> |hits| > 0 by {
      if exists i, k :: 0 <= i < |required| && 0 <= k < |candidateSkills| && SkillHit(required[i], candidateSkills[k]) {
        var i, k :| 0 <= i < |required| && 0 <= k < |candidateSkills| && SkillHit(required[i], candidateSkills[k]);
        assert required[i] in hits;
      }
    }
    |hits|
  }

  /** The query location admits the candidate: no query, a remote query,
    * the query inside the candidate's location, or a remote candidate. */
  predicate LocationOk(query: string, candidateLocation: string)
  {
    query == "" || Lower(query) == "remote" ||
    Contains(Lower(candidateLocation), Lower(query)) || Lower(candidateLocation) == "remote"
  }

  predicate Qualifies(c: PoolCandidate, skills: seq<string>, location: string, experienceMin: int)
  {
    c.experienceYears >= experienceMin && LocationOk(location, c.location) && SkillMatches(skills, c.skills) > 0
  }

  function Qualifying(skills: seq<string>, location: string, experienceMin: int): PoolCandidate -> bool
  {
    (c: PoolCandidate) => Qualifies(c, skills, location, experienceMin)
  }

  /** The inner loop: a hit of one required skill, stopping at the first. */
  method AnyHit(required: string, candidateSkills: seq<string>) returns (hit: bool)
    ensures hit == HasHit(required, candidateSkills)
  {
    hit := false;
    var r := Squash(required);
    var k := 0;
    while k < |candidateSkills|
      invariant 0 <= k <= |candidateSkills|
      invariant !hit ==> forall j :: 0 <= j < k ==> !SkillHit(required, candidateSkills[j])
      invariant hit ==> HasHit(required, candidateSkills)
    {
      var c := Squash(candidateSkills[k]);
      if Contains(c, r) || Contains(r, c) {
        hit := true;
        break;
      }
      if (Contains(r, "microservice") && Contains(c, "microservice")) ||
         (Contains(r, "postgresql") && Contains(c, "postgres")) ||
         (Contains(r, "javascript") && Contains(c, "js")) {
        hit := true;
        break;
      }
      k := k + 1;
    }
  }

  /** One round of the middle loop: the count grows by one when the next
    * required skill has a hit. */
  method CountStep(required: seq<string>, candidateSkills: seq<string>, i: nat, n: nat) returns (n': nat)
    requires i < |required| && n == |Filter(required[..i], HitIn(candidateSkills))|
    ensures n' == |Filter(required[..i + 1], HitIn(candidateSkills))|
  {
    FilterSnoc(required, i, HitIn(candidateSkills));
    var hit := AnyHit(required[i], candidateSkills);
    n' := if hit then n + 1 else n;
  }

  /** The middle loop: counts the required skills that have a hit. */
  method CountSkillMatches(required: seq<string>, candidateSkills: seq<string>) returns (n: nat)
    ensures n == SkillMatches(required, candidateSkills)
  {
    n := 0;
    for i := 0 to |required|
      invariant n == |Filter(required[..i], HitIn(candidateSkills))|
    {
      n := CountStep(required, candidateSkills, i, n);
    }
    assert required[..|required|] == required;
  }

  /** The tests of one pool member: experience, then location, then at
    * least one skill hit. */
  method Admit(c: PoolCandidate, skills: seq<string>, location: string, experienceMin: int) returns (ok: bool)
    ensures ok == Qualifies(c, skills, location, experienceMin)
  {
    ok := false;
    var skillMatches := CountSkillMatches(skills, c.skills);
    if c.experienceYears >= experienceMin {
      if location == "" || Lower(location) == "remote" ||
         Contains(Lower(c.location), Lower(location)) || Lower(c.location) == "remote" {
        if skillMatches > 0 {
          ok := true;
        }
      }
    }
  }

  /** `MockLinkedInAPI.search_candidates`: the pool members, in pool order,
    * that clear the experience floor, the location test and at least one
    * skill hit. */
  method SearchCandidates(pool: seq<PoolCandidate>, skills: seq<string>, location: string, experienceMin: int)
    returns (matches: seq<PoolCandidate>)
    ensures matches == Filter(pool, Qualifying(skills, location, experienceMin))
  {
    matches := [];
    for i := 0 to |pool|
      invariant matches == Filter(pool[..i], Qualifying(skills, location, experienceMin))
    {
      FilterSnoc(pool, i, Qualifying(skills, location, experienceMin));
      var admitted := Admit(pool[i], skills, location, experienceMin);
      if admitted {
        matches := matches + [pool[i]];
      }
    }
    assert pool[..|pool|] == pool;
  }

  // ------------------------------------------------------------ campaigns

  /** One outreach campaign. `jobId` is the dictionary's "job_id" key:
    * `generate_outreach_campaigns` as written leaves it out. */
  datatype Campaign = Campaign(
    candidateId: nat, candidateName: string, candidateEmail: string, matchScore: real,
    emailContent: string, outreachId: nat, jobId: Option<int>)

  function AtLeast(minScore: real): CandidateView -> bool
  {
    (v: CandidateView) => v.row.matchScore >= minScore
  }

  predicate NotContacted(v: CandidateView)
  {
    v.row.responseStatus == "not_contacted"
  }

  /** The candidates campaigns are written for: those scoring at least
    * `minScore`, cut to the first `maxOutreach`, and only then narrowed to
    * the ones not contacted yet. */
  function CampaignTargets(cands: seq<CandidateView>, minScore: real, maxOutreach: int): (r: seq<CandidateView>)
    ensures maxOutreach >= 0 ==> |r| <= maxOutreach
    ensures forall v :: v in r ==> v in cands && v.row.matchScore >= minScore && NotContacted(v)
  {
    var shortlisted := Filter(cands, AtLeast(minScore));
    var cut := Take(shortlisted, maxOutreach);
    assert cut == shortlisted[..|cut|];
    forall v | v in Filter(cut, NotContacted)
      ensures v in cands
    {
      assert v in cut;
    }
    Filter(cut, NotContacted)
  }

  /** The cut comes before the status test, so already-contacted candidates
    * use up places: with one place and a contacted candidate ranked first,
    * no campaign is written although a later candidate qualifies. */
  lemma CutBeforeStatus(a: CandidateView, b: CandidateView)
    requires a.row.matchScore >= 0.6 && a.row.responseStatus == "contacted"
    requires b.row.matchScore >= 0.6 && NotContacted(b)
    ensures CampaignTargets([a, b], 0.6, 1) == []
  {
    assert [a, b][..1] == [a];
    assert [a, b][..2][..1] == [a];
    assert Filter([a], AtLeast(0.6)) == [a];
    assert [a, b][..|[a, b]| - 1] == [a];
    assert Filter([a, b], AtLeast(0.6)) == [a, b];
    assert Take([a, b], 1) == [a];
    assert [a][..0] == [];
  }

  /** The email the generator writes for a candidate and job (the model's
    * reply, or the fixed template when the model fails). */
  type Composer = (CandidateView, Job) -> string

  /** The email `compose` writes for a candidate and job. */
  function EmailOf(compose: Composer, v: CandidateView, job: Job): string
  {
    compose(v, job)
  }

  /** `next((j for j in jobs if j['id'] == job_id), None)`. */
  function FindJob(jobs: seq<Job>, jobId: int): (r: Option<Job>)
    ensures r.Some? ==> r.value in jobs && r.value.id == jobId
    ensures r.None? <==> forall j :: j in jobs ==> j.id != jobId
  {
    if |jobs| == 0 then None
    else if jobs[0].id == jobId then Some(jobs[0])
    else FindJob(jobs[1..], jobId)
  }

  /** The campaign entry as `generate_outreach_campaigns` writes it: no "job_id". */
  function CampaignAsWritten(v: CandidateView, content: string, outreachId: nat): (c: Campaign)
    ensures c.candidateId == v.id && c.jobId.None?
  {
    Campaign(v.id, v.row.name, v.row.email, v.row.matchScore, content, outreachId, None)
  }

  /** The campaign entry carrying the job it was written for. */
  function CampaignFor(v: CandidateView, content: string, outreachId: nat, jobId: int): (c: Campaign)
    ensures c.candidateId == v.id && c.jobId == Some(jobId) && c.emailContent == content
  {
    Campaign(v.id, v.row.name, v.row.email, v.row.matchScore, content, outreachId, Some(jobId))
  }

  /** The campaigns for `targets`; the k-th is logged as row `base + k + 1`. */
  function CampaignsFor(targets: seq<CandidateView>, job: Job, jobId: int, compose: Composer, base: nat)
    : (r: seq<Campaign>)
    ensures |r| == |targets|
  {
    if |targets| == 0 then []
    else
      var init := targets[..|targets| - 1];
      var last := targets[|targets| - 1];
      CampaignsFor(init, job, jobId, compose, base) + [CampaignFor(last, EmailOf(compose, last, job), base + |targets|, jobId)]
  }

  /** The k-th campaign is for the k-th target and names log row `base + k + 1`. */
  lemma {:induction false} CampaignsForAt(targets: seq<CandidateView>, job: Job, jobId: int,
                                          compose: Composer, base: nat, k: nat)
    requires k < |targets|
    ensures CampaignsFor(targets, job, jobId, compose, base)[k] ==
      CampaignFor(targets[k], EmailOf(compose, targets[k], job), base + k + 1, jobId)
    decreases |targets|
  {
    if k < |targets| - 1 {
      CampaignsForAt(targets[..|targets| - 1], job, jobId, compose, base, k);
    }
  }

  lemma CampaignsForSnoc(targets: seq<CandidateView>, v: CandidateView, job: Job, jobId: int,
                         compose: Composer, base: nat)
    ensures CampaignsFor(targets + [v], job, jobId, compose, base) ==
      CampaignsFor(targets, job, jobId, compose, base) + [CampaignFor(v, EmailOf(compose, v, job), base + |targets| + 1, jobId)]
  {
    assert (targets + [v])[..|targets|] == targets;
  }

  /** The "generated" log rows for `targets`. */
  function GeneratedLog(targets: seq<CandidateView>, job: Job, jobId: int, compose: Composer, today: string)
    : (r: seq<OutreachRow>)
    ensures |r| == |targets|
  {
    if |targets| == 0 then []
    else
      var init := targets[..|targets| - 1];
      var last := targets[|targets| - 1];
      GeneratedLog(init, job, jobId, compose, today) +
        [OutreachRow(last.id, jobId, today, EmailOf(compose, last, job), "email", "generated", "")]
  }

  /** The k-th generated row logs the k-th target under `jobId`. */
  lemma {:induction false} GeneratedLogAt(targets: seq<CandidateView>, job: Job, jobId: int,
                                          compose: Composer, today: string, k: nat)
    requires k < |targets|
    ensures GeneratedLog(targets, job, jobId, compose, today)[k] ==
      OutreachRow(targets[k].id, jobId, today, EmailOf(compose, targets[k], job), "email", "generated", "")
    decreases |targets|
  {
    if k < |targets| - 1 {
      GeneratedLogAt(targets[..|targets| - 1], job, jobId, compose, today, k);
    }
  }

  lemma GeneratedLogSnoc(targets: seq<CandidateView>, v: CandidateView, job: Job, jobId: int,
                         compose: Composer, today: string)
    ensures GeneratedLog(targets + [v], job, jobId, compose, today) ==
      GeneratedLog(targets, job, jobId, compose, today) +
      [OutreachRow(v.id, jobId, today, EmailOf(compose, v, job), "email", "generated", "")]
  {
    assert (targets + [v])[..|targets|] == targets;
  }

  /** The row `send_outreach_emails` logs for a campaign: under its "job_id",
    * or job 1 when it has none. */
  function SentRow(c: Campaign, today: string): (row: OutreachRow)
    ensures row.candidateId == c.candidateId && row.status == "sent" && row.date == today
    ensures c.jobId.Some? ==> row.jobId == c.jobId.value
  {
    OutreachRow(c.candidateId, c.jobId.GetOr(1), today, c.emailContent, "email", "sent", "")
  }

  /** As written, every campaign is logged as sent under job 1, whatever
    * job it was generated for. */
  lemma SentUnderJobOne(v: CandidateView, content: string, outreachId: nat, jobId: int, today: string)
    requires jobId != 1
    ensures SentRow(CampaignAsWritten(v, content, outreachId), today).jobId == 1 != jobId
  {
  }

  /** With the job carried along, the sent row is logged under the same job
    * as the generated row. */
  lemma SentUnderCampaignJob(targets: seq<CandidateView>, job: Job, jobId: int, compose: Composer,
                             base: nat, today: string, k: nat)
    requires k < |targets|
    ensures var c := CampaignsFor(targets, job, jobId, compose, base)[k];
      var g := GeneratedLog(targets, job, jobId, compose, today)[k];
      SentRow(c, today) == g.(status := "sent")
  {
    CampaignsForAt(targets, job, jobId, compose, base, k);
    GeneratedLogAt(targets, job, jobId, compose, today, k);
  }

  lemma DatedSnoc(rows: seq<OutreachRow>, row: OutreachRow, today: string)
    requires AllDated(rows, today) && row.date == today
    ensures AllDated(rows + [row], today)
  {
    assert forall j :: 0 <= j < |rows| ==> (rows + [row])[j] == rows[j];
  }

  /** Every generated row is dated `today` and names its target. */
  lemma GeneratedLogDated(targets: seq<CandidateView>, job: Job, jobId: int, compose: Composer, today: string)
    ensures var log := GeneratedLog(targets, job, jobId, compose, today);
      forall j :: 0 <= j < |log| ==> log[j].date == today && log[j].candidateId == targets[j].id
  {
    forall j | 0 <= j < |targets|
      ensures GeneratedLog(targets, job, jobId, compose, today)[j].date == today
      ensures GeneratedLog(targets, job, jobId, compose, today)[j].candidateId == targets[j].id
    {
      GeneratedLogAt(targets, job, jobId, compose, today, j);
    }
  }

  /** Whether the store fails on logging campaign `c`. */
  predicate Failing(fails: Campaign -> bool, c: Campaign)
  {
    fails(c)
  }

  /** The rows `send_outreach_emails` logs: one per campaign that does not fail. */
  function SentLog(campaigns: seq<Campaign>, fails: Campaign -> bool, today: string): (r: seq<OutreachRow>)
    ensures |r| == |campaigns| - |Filter(campaigns, fails)|
  {
    if |campaigns| == 0 then []
    else
      var init := campaigns[..|campaigns| - 1];
      var last := campaigns[|campaigns| - 1];
      SentLog(init, fails, today) + (if fails(last) then [] else [SentRow(last, today)])
  }

  lemma SentLogSnoc(campaigns: seq<Campaign>, i: nat, fails: Campaign -> bool, today: string)
    requires i < |campaigns|
    ensures fails(campaigns[i]) ==> SentLog(campaigns[..i + 1], fails, today) == SentLog(campaigns[..i], fails, today)
    ensures !fails(campaigns[i]) ==>
      SentLog(campaigns[..i + 1], fails, today) == SentLog(campaigns[..i], fails, today) + [SentRow(campaigns[i], today)]
  {
    var cs := campaigns[..i + 1];
    assert cs[..|cs| - 1] == campaigns[..i];
    assert cs[|cs| - 1] == campaigns[i];
    var prior := SentLog(campaigns[..i], fails, today);
    assert SentLog(cs, fails, today) == prior + (if fails(campaigns[i]) then [] else [SentRow(campaigns[i], today)]);
    assert prior + [] == prior;
  }

  /** Every sent row is dated `today`. */
  lemma {:induction false} SentLogDated(campaigns: seq<Campaign>, fails: Campaign -> bool, today: string)
    ensures AllDated(SentLog(campaigns, fails, today), today)
    decreases |campaigns|
  {
    if |campaigns| > 0 {
      var n := |campaigns| - 1;
      var init := campaigns[..n];
      SentLogDated(init, fails, today);
      var prior := SentLog(init, fails, today);
      if fails(campaigns[n]) {
        assert SentLog(campaigns, fails, today) == prior + [];
        assert prior + [] == prior;
      } else {
        var row := SentRow(campaigns[n], today);
        assert SentLog(campaigns, fails, today) == prior + [row];
        DatedSnoc(prior, row, today);
      }
    }
  }

  datatype SendSummary = SendSummary(sent: nat, failed: nat, total: nat)

  // ---------------------------------------------------------------- report

  function SumScores(cands: seq<CandidateView>): real
  {
    if |cands| == 0 then 0.0 else SumScores(cands[..|cands| - 1]) + cands[|cands| - 1].row.matchScore
  }

  lemma {:induction false} SumScoresBounds(cands: seq<CandidateView>)
    requires forall v :: v in cands ==> 0.0 <= v.row.matchScore <= 1.0
    ensures 0.0 <= SumScores(cands) <= |cands| as real
    decreases |cands|
  {
    if |cands| > 0 {
      var init := cands[..|cands| - 1];
      assert forall v :: v in init ==> v in cands;
      assert cands[|cands| - 1] in cands;
      SumScoresBounds(init);
    }
  }

  /** One job's entry of the daily report: its candidate count, mean score
    * (0 without candidates) and best-ranked candidate ("None" without). */
  function JobMetricsOf(job: Job, cands: seq<CandidateView>): (m: JobMetrics)
    ensures m.jobId == job.id && m.candidatesSourced == |cands|
    ensures cands == [] ==> m.avgMatchScore == 0.0 && m.topCandidate == "None"
    ensures cands != [] ==> m.topCandidate == cands[0].row.name
    ensures (forall v :: v in cands ==> 0.0 <= v.row.matchScore <= 1.0) ==> 0.0 <= m.avgMatchScore <= 1.0
  {
    var avg := if |cands| > 0 then SumScores(cands) / |cands| as real else 0.0;
    assert (forall v :: v in cands ==> 0.0 <= v.row.matchScore <= 1.0) ==> 0.0 <= avg <= 1.0 by {
      if forall v :: v in cands ==> 0.0 <= v.row.matchScore <= 1.0 {
        SumScoresBounds(cands);
        if |cands| > 0 {
          RatioAtMostOne(SumScores(cands), |cands| as real);
        }
      }
    }
    JobMetrics(job.id, job.title, |cands|, avg, if |cands| > 0 then cands[0].row.name else "None")
  }

  /** The job breakdown of the daily report, over the active jobs in order. */
  function Breakdown(jobs: seq<Job>, rows: seq<CandidateRow>): (r: seq<JobMetrics>)
    ensures |r| == |jobs|
  {
    if |jobs| == 0 then []
    else Breakdown(jobs[..|jobs| - 1], rows) + [JobMetricsOf(jobs[|jobs| - 1], ByJob(rows, jobs[|jobs| - 1].id))]
  }

  // -------------------------------------------------------------- pipeline

  /** `response_rate`: "0%" with no contacted candidate, else the text
    * `f"{x:.1f}%"`, held as its count of tenths of a percent. */
  datatype Rate = ZeroPercent | Percent(tenths: nat)

  datatype JobDetail = JobDetail(
    jobId: nat, title: string, candidates: nat, contacted: nat, responded: nat, responseRate: Rate)

  datatype Pipeline = Pipeline(
    activeJobs: nat, totalCandidates: nat, contactedCandidates: nat, respondedCandidates: nat,
    jobsDetail: seq<JobDetail>)

  predicate WasContacted(v: CandidateView)
  {
    v.row.responseStatus == "contacted" || v.row.responseStatus == "responded"
  }

  predicate HasResponded(v: CandidateView)
  {
    v.row.responseStatus == "responded"
  }

  /** One job's pipeline entry: contacted counts the responded candidates
    * too, so it bounds them. */
  function JobDetailOf(job: Job, cands: seq<CandidateView>): (d: JobDetail)
    ensures d.jobId == job.id && d.candidates == |cands|
    ensures d.responded <= d.contacted <= d.candidates
    ensures d.responseRate == ZeroPercent <==> d.contacted == 0
    ensures d.responseRate.Percent? ==>
      2 * d.contacted * d.responseRate.tenths <= 2000 * d.responded + d.contacted <
      2 * d.contacted * d.responseRate.tenths + 2 * d.contacted
    ensures d.responseRate.Percent? ==> d.responseRate.tenths <= 1000
    ensures d.responseRate == Percent(1000) <==> d.contacted > 0 && 2000 * d.responded >= 1999 * d.contacted
  {
    FilterStronger(cands, WasContacted, HasResponded);
    var contacted := |Filter(cands, WasContacted)|;
    var responded := |Filter(cands, HasResponded)|;
    var rate := if contacted > 0 then
                  PercentTenthsBounds(responded, contacted);
                  ShownFull(responded, contacted);
                  Percent(PercentTenths(responded, contacted))
                else ZeroPercent;
    JobDetail(job.id, job.title, |cands|, contacted, responded, rate)
  }

  function Details(jobs: seq<Job>, rows: seq<CandidateRow>): (r: seq<JobDetail>)
    ensures |r| == |jobs|
  {
    if |jobs| == 0 then []
    else Details(jobs[..|jobs| - 1], rows) + [JobDetailOf(jobs[|jobs| - 1], ByJob(rows, jobs[|jobs| - 1].id))]
  }

  function SumOf(details: seq<JobDetail>, f: JobDetail -> nat): nat
  {
    if |details| == 0 then 0 else SumOf(details[..|details| - 1], f) + f(details[|details| - 1])
  }

  function Candidates(d: JobDetail): nat { d.candidates }
  function Contacted(d: JobDetail): nat { d.contacted }
  function Responded(d: JobDetail): nat { d.responded }

  lemma BreakdownStep(jobs: seq<Job>, rows: seq<CandidateRow>, i: nat)
    requires i < |jobs|
    ensures Breakdown(jobs[..i + 1], rows) == Breakdown(jobs[..i], rows) + [JobMetricsOf(jobs[i], ByJob(rows, jobs[i].id))]
  {
    assert jobs[..i + 1][..i] == jobs[..i];
  }

  lemma DetailsStep(jobs: seq<Job>, rows: seq<CandidateRow>, i: nat)
    requires i < |jobs|
    ensures Details(jobs[..i + 1], rows) == Details(jobs[..i], rows) + [JobDetailOf(jobs[i], ByJob(rows, jobs[i].id))]
  {
    assert jobs[..i + 1][..i] == jobs[..i];
  }

  lemma SumOfSnoc(details: seq<JobDetail>, d: JobDetail, f: JobDetail -> nat)
    ensures SumOf(details + [d], f) == SumOf(details, f) + f(d)
  {
    assert (details + [d])[..|details|] == details;
  }

  /** One job's entry added to the running totals. */
  method AddDetail(details: seq<JobDetail>, d: JobDetail, total: nat, contacted: nat, responded: nat)
    returns (total': nat, contacted': nat, responded': nat)
    requires total == SumOf(details, Candidates)
    requires contacted == SumOf(details, Contacted) && responded == SumOf(details, Responded)
    ensures total' == SumOf(details + [d], Candidates)
    ensures contacted' == SumOf(details + [d], Contacted) && responded' == SumOf(details + [d], Responded)
  {
    SumOfSnoc(details, d, Candidates);
    SumOfSnoc(details, d, Contacted);
    SumOfSnoc(details, d, Responded);
    total', contacted', responded' := total + d.candidates, contacted + d.contacted, responded + d.responded;
  }

  /** The pipeline totals are sums over the jobs, so they keep the per-job
    * ordering: responded <= contacted <= candidates. */
  lemma {:induction false} PipelineTotals(jobs: seq<Job>, rows: seq<CandidateRow>)
    ensures var ds := Details(jobs, rows);
      SumOf(ds, Responded) <= SumOf(ds, Contacted) <= SumOf(ds, Candidates)
    decreases |jobs|
  {
    if |jobs| > 0 {
      var init := jobs[..|jobs| - 1];
      PipelineTotals(init, rows);
      var ds := Details(jobs, rows);
      assert ds[..|ds| - 1] == Details(init, rows);
    }
  }

  /** The error the prompt's `job['title']` raises when `job` is None. */
  const NoJobError := "TypeError: 'NoneType' object is not subscriptable"

  // ------------------------------------------------------------ the agent

  class HRRecruitmentAgent {
    const db: HRDatabase

    constructor (db: HRDatabase)
      ensures this.db == db
    {
      this.db := db;
    }

    /** One candidate of the campaign loop: a candidate not contacted yet
      * gets an email, logged as "generated", and joins the targets `done`
      * served so far. */
    method CampaignStep(v: CandidateView, job: Job, jobId: int, compose: Composer, today: string,
                        campaigns: seq<Campaign>, ghost done: seq<CandidateView>, ghost log0: seq<OutreachRow>,
                        ghost cands0: seq<CandidateRow>)
      returns (campaigns': seq<Campaign>, ghost done': seq<CandidateView>)
      requires db.Valid()
      requires campaigns == CampaignsFor(done, job, jobId, compose, |log0|)
      requires db.outreach == log0 + GeneratedLog(done, job, jobId, compose, today)
      requires db.candidates == ContactAll(cands0, GeneratedLog(done, job, jobId, compose, today))
      modifies db
      ensures db.Valid() && db.jobs == old(db.jobs) && db.reports == old(db.reports)
      ensures done' == done + (if NotContacted(v) then [v] else [])
      ensures campaigns' == CampaignsFor(done', job, jobId, compose, |log0|)
      ensures db.outreach == log0 + GeneratedLog(done', job, jobId, compose, today)
      ensures db.candidates == ContactAll(cands0, GeneratedLog(done', job, jobId, compose, today))
    {
      campaigns', done' := campaigns, done;
      if v.row.responseStatus == "not_contacted" {
        CampaignsForSnoc(done, v, job, jobId, compose, |log0|);
        GeneratedLogSnoc(done, v, job, jobId, compose, today);
        ContactAllSnoc(cands0, GeneratedLog(done, job, jobId, compose, today),
          OutreachRow(v.id, jobId, today, EmailOf(compose, v, job), "email", "generated", ""));
        var content := EmailOf(compose, v, job);
        var outreachId := db.LogOutreach(v.id, jobId, content, "email", "generated", today);
        campaigns', done' := campaigns + [CampaignFor(v, content, outreachId, jobId)], done + [v];
      }
    }

    /** `generate_outreach_campaigns`, each campaign carrying its job. With
      * no active job of that id, the prompt's `job['title']` raises at the
      * first candidate not contacted yet, before anything is logged. */
    method GenerateOutreachCampaigns(jobId: int, minScore: real, maxOutreach: int, compose: Composer, today: string)
      returns (r: Result<seq<Campaign>, string>)
      requires db.Valid()
      modifies db
      ensures db.Valid()
      ensures db.jobs == old(db.jobs) && db.reports == old(db.reports)
      ensures var targets := CampaignTargets(ByJob(old(db.candidates), jobId), minScore, maxOutreach);
        var job := FindJob(JobsWithStatus(old(db.jobs), "active"), jobId);
        if job.None? then
          r == (if targets == [] then Success([]) else Failure(NoJobError)) &&
          db.outreach == old(db.outreach) && db.candidates == old(db.candidates)
        else
          r == Success(CampaignsFor(targets, job.value, jobId, compose, |old(db.outreach)|)) &&
          db.outreach == old(db.outreach) + GeneratedLog(targets, job.value, jobId, compose, today) &&
          db.candidates == ContactAll(old(db.candidates), GeneratedLog(targets, job.value, jobId, compose, today))
      ensures r.Success? && maxOutreach >= 0 ==> |r.value| <= maxOutreach
    {
      var jobs := db.GetJobs("active");
      var job := FindJob(jobs, jobId);
      var cands := db.GetCandidatesByJob(jobId, 0);
      var shortlisted := Take(Filter(cands, AtLeast(minScore)), maxOutreach);
      if job.None? {
        r := CampaignsWithoutJob(shortlisted);
        return;
      }
      ghost var log0 := db.outreach;
      ghost var cands0 := db.candidates;
      ghost var done: seq<CandidateView> := [];
      var campaigns := [];
      for i := 0 to |shortlisted|
        invariant db.Valid()
        invariant db.jobs == old(db.jobs) && db.reports == old(db.reports)
        invariant done == Filter(shortlisted[..i], NotContacted)
        invariant campaigns == CampaignsFor(done, job.value, jobId, compose, |log0|)
        invariant db.outreach == log0 + GeneratedLog(done, job.value, jobId, compose, today)
        invariant db.candidates == ContactAll(cands0, GeneratedLog(done, job.value, jobId, compose, today))
      {
        FilterSnoc(shortlisted, i, NotContacted);
        campaigns, done := CampaignStep(shortlisted[i], job.value, jobId, compose, today, campaigns, done, log0, cands0);
      }
      assert shortlisted[..|shortlisted|] == shortlisted;
      r := Success(campaigns);
    }

    /** The campaign loop without a job: contacted candidates are passed
      * over, and the first one not contacted yet raises. */
    static method CampaignsWithoutJob(shortlisted: seq<CandidateView>) returns (r: Result<seq<Campaign>, string>)
      ensures r == if Filter(shortlisted, NotContacted) == [] then Success([]) else Failure(NoJobError)
    {
      for i := 0 to |shortlisted|
        invariant Filter(shortlisted[..i], NotContacted) == []
      {
        FilterSnoc(shortlisted, i, NotContacted);
        if shortlisted[i].row.responseStatus == "not_contacted" {
          assert shortlisted[i] in Filter(shortlisted, NotContacted);
          return Failure(NoJobError);
        }
      }
      assert shortlisted[..|shortlisted|] == shortlisted;
      r := Success([]);
    }

    /** `send_outreach_emails`: each campaign is logged as sent unless the
      * store fails on it (`fails`), and counted either way. */
    method SendOutreachEmails(campaigns: seq<Campaign>, fails: Campaign -> bool, today: string)
      returns (result: SendSummary)
      requires db.Valid()
      modifies db
      ensures db.Valid()
      ensures result.sent + result.failed == result.total == |campaigns|
      ensures result.failed == |Filter(campaigns, fails)|
      ensures db.outreach == old(db.outreach) + SentLog(campaigns, fails, today)
      ensures db.candidates == ContactAll(old(db.candidates), SentLog(campaigns, fails, today))
      ensures db.jobs == old(db.jobs) && db.reports == old(db.reports)
    {
      var sent := 0;
      var failed := 0;
      ghost var log0, cands0 := db.outreach, db.candidates;
      for i := 0 to |campaigns|
        invariant db.Valid()
        invariant failed == |Filter(campaigns[..i], fails)| && sent + failed == i
        invariant db.outreach == log0 + SentLog(campaigns[..i], fails, today)
        invariant db.candidates == ContactAll(cands0, SentLog(campaigns[..i], fails, today))
        invariant db.jobs == old(db.jobs) && db.reports == old(db.reports)
      {
        FilterSnoc(campaigns, i, fails);
        var ok := SendStep(campaigns, i, fails, today, log0, cands0);
        if ok {
          sent := sent + 1;
        } else {
          failed := failed + 1;
        }
      }
      assert campaigns[..|campaigns|] == campaigns;
      result := SendSummary(sent, failed, |campaigns|);
    }

    /** One campaign of the send loop: logged as sent unless the store fails on it. */
    method SendStep(campaigns: seq<Campaign>, i: nat, fails: Campaign -> bool, today: string,
                    ghost log0: seq<OutreachRow>, ghost cands0: seq<CandidateRow>)
      returns (ok: bool)
      requires i < |campaigns| && db.Valid()
      requires db.outreach == log0 + SentLog(campaigns[..i], fails, today)
      requires db.candidates == ContactAll(cands0, SentLog(campaigns[..i], fails, today))
      modifies db
      ensures db.Valid() && db.jobs == old(db.jobs) && db.reports == old(db.reports)
      ensures ok == !fails(campaigns[i])
      ensures db.outreach == log0 + SentLog(campaigns[..i + 1], fails, today)
      ensures db.candidates == ContactAll(cands0, SentLog(campaigns[..i + 1], fails, today))
    {
      SentLogSnoc(campaigns, i, fails, today);
      var c := campaigns[i];
      if Failing(fails, c) {
        ok := false;
      } else {
        LogSent(c, today, log0, cands0, SentLog(campaigns[..i], fails, today));
        ok := true;
      }
    }

    /** Logging campaign `c` as sent after the rows `prior`. */
    method LogSent(c: Campaign, today: string,
                   ghost log0: seq<OutreachRow>, ghost cands0: seq<CandidateRow>, ghost prior: seq<OutreachRow>)
      requires db.Valid()
      requires db.outreach == log0 + prior && db.candidates == ContactAll(cands0, prior)
      modifies db
      ensures db.Valid() && db.jobs == old(db.jobs) && db.reports == old(db.reports)
      ensures db.outreach == log0 + (prior + [SentRow(c, today)])
      ensures db.candidates == ContactAll(cands0, prior + [SentRow(c, today)])
    {
      var row := SentRow(c, today);
      assert row == OutreachRow(c.candidateId, c.jobId.GetOr(1), today, c.emailContent, "email", "sent", "");
      ContactAllSnoc(cands0, prior, row);
      var _ := db.LogOutreach(c.candidateId, c.jobId.GetOr(1), c.emailContent, "email", "sent", today);
      assert log0 + prior + [row] == log0 + (prior + [row]);
    }

    /** The daily report before it is saved. */
    method BuildDailyReport(day: string, today: string) returns (report: ReportDetail)
      requires day != ""
      ensures report.date == day
      ensures report.summary == DailyMetrics(db.candidates, db.outreach, day)
      ensures report.jobBreakdown == Breakdown(JobsWithStatus(db.jobs, "active"), db.candidates)
      ensures report.totalSent == report.summary.contacted
    {
      var metrics := db.GetDailyMetrics(day, today);
      var jobs := db.GetJobs("active");
      var breakdown := [];
      for i := 0 to |jobs|
        invariant breakdown == Breakdown(jobs[..i], db.candidates)
      {
        BreakdownStep(jobs, db.candidates, i);
        var cands := db.GetCandidatesByJob(jobs[i].id, 0);
        breakdown := breakdown + [JobMetricsOf(jobs[i], cands)];
      }
      assert jobs[..|jobs|] == jobs;
      report := ReportDetail(day, metrics, breakdown, metrics.contacted);
    }

    /** `generate_daily_report` as written: the nested report is handed to
      * `save_daily_report`, which reads the counts from its top level, so
      * the call always fails with a `KeyError` and nothing is saved. */
    method GenerateDailyReportAsWritten(date: string, today: string) returns (r: Result<ReportDetail, string>)
      requires today != ""
      modifies db
      ensures r == Failure("KeyError: 'candidates_sourced'")
      ensures db.reports == old(db.reports)
      ensures db.jobs == old(db.jobs) && db.candidates == old(db.candidates) && db.outreach == old(db.outreach)
    {
      var day := if date == "" then today else date;
      var report := BuildDailyReport(day, today);
      var saved := db.SaveDailyReport(ReportArg(None, Some(report)), day, today);
      r := if saved.Success? then Success(report) else Failure(saved.error);
    }

    /** `generate_daily_report` with the summary counts at the top level of
      * the saved dictionary: the report is saved under its date. */
    method GenerateDailyReport(date: string, today: string) returns (r: Result<ReportDetail, string>)
      requires today != ""
      modifies db
      ensures r.Success?
      ensures var day := if date == "" then today else date;
        r.value.date == day && r.value.summary == DailyMetrics(old(db.candidates), old(db.outreach), day) &&
        db.reports == old(db.reports)[day := ReportRow(r.value.summary, ReportArg(Some(r.value.summary), Some(r.value)))]
      ensures r.value.jobBreakdown == Breakdown(JobsWithStatus(old(db.jobs), "active"), old(db.candidates))
      ensures r.value.totalSent == r.value.summary.contacted
      ensures db.jobs == old(db.jobs) && db.candidates == old(db.candidates) && db.outreach == old(db.outreach)
    {
      var day := if date == "" then today else date;
      var report := BuildDailyReport(day, today);
      var _ := db.SaveDailyReport(ReportArg(Some(report.summary), Some(report)), day, today);
      r := Success(report);
    }

    /** `get_pipeline_status`: one entry per active job, and the totals are
      * their sums. */
    method GetPipelineStatus() returns (p: Pipeline)
      ensures p.jobsDetail == Details(JobsWithStatus(db.jobs, "active"), db.candidates)
      ensures p.activeJobs == |p.jobsDetail|
      ensures p.totalCandidates == SumOf(p.jobsDetail, Candidates)
      ensures p.contactedCandidates == SumOf(p.jobsDetail, Contacted)
      ensures p.respondedCandidates == SumOf(p.jobsDetail, Responded)
      ensures p.respondedCandidates <= p.contactedCandidates <= p.totalCandidates
    {
      var jobs := db.GetJobs("active");
      var total, contacted, responded := 0, 0, 0;
      var details := [];
      for i := 0 to |jobs|
        invariant details == Details(jobs[..i], db.candidates)
        invariant total == SumOf(details, Candidates)
        invariant contacted == SumOf(details, Contacted)
        invariant responded == SumOf(details, Responded)
      {
        DetailsStep(jobs, db.candidates, i);
        var cands := db.GetCandidatesByJob(jobs[i].id, 0);
        var d := JobDetailOf(jobs[i], cands);
        total, contacted, responded := AddDetail(details, d, total, contacted, responded);
        details := details + [d];
      }
      assert jobs[..|jobs|] == jobs;
      PipelineTotals(jobs, db.candidates);
      p := Pipeline(|jobs|, total, contacted, responded, details);
    }
  }
}
