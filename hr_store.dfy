/** The recruitment agent's store (`HRDatabase`): jobs, candidates, an
  * outreach log and daily reports. The store never deletes, so each table
  * is a sequence whose autoincrement id is the position plus one. The JSON
  * columns hold the RFC 8259 text of a list of strings. The moment a row is
  * stamped with (`CURRENT_TIMESTAMP`, `datetime.now()`) is the `today`
  * parameter of the operation, as a `YYYY-MM-DD` date. */
module HrStore {
  import opened Wrappers
  import opened Seqs
  import opened Sorting
  import opened JsonCodec

  /** A row of the `jobs` table; `requiredSkillsJson` is the JSON column. */
  datatype JobRow = JobRow(
    title: string, company: string, description: string, requiredSkillsJson: string,
    experienceLevel: string, location: string, status: string)

  /** A job as `get_jobs` returns it: the row with its id and its skills decoded. */
  datatype Job = Job(
    id: nat, title: string, company: string, description: string, requiredSkills: seq<string>,
    experienceLevel: string, location: string, status: string)

  /** The `Candidate` record handed to `add_candidate`. */
  datatype Candidate = Candidate(
    name: string, email: string, linkedinUrl: string, skills: seq<string>,
    experienceYears: int, location: string, summary: string, matchScore: real,
    jobId: int, responseStatus: string, notes: string)

  /** A row of the `candidates` table. */
  datatype CandidateRow = CandidateRow(
    name: string, email: string, linkedinUrl: string, skillsJson: string,
    experienceYears: int, location: string, summary: string, matchScore: real,
    jobId: int, sourcedDate: string, lastContacted: Option<string>,
    responseStatus: string, notes: string)

  /** A candidate as `get_candidates_by_job` returns it: id, row, decoded skills. */
  datatype CandidateView = CandidateView(id: nat, row: CandidateRow, skills: seq<string>)

  /** A row of the `outreach_log` table. */
  datatype OutreachRow = OutreachRow(
    candidateId: int, jobId: int, date: string, message: string,
    platform: string, status: string, responseContent: string)

  /** The four counts of `get_daily_metrics`. */
  datatype Metrics = Metrics(sourced: nat, shortlisted: nat, contacted: nat, responses: nat)

  /** One entry of a daily report's `job_breakdown`. */
  datatype JobMetrics = JobMetrics(
    jobId: nat, jobTitle: string, candidatesSourced: nat, avgMatchScore: real, topCandidate: string)

  /** The nested report `generate_daily_report` builds: date, summary,
    * job_breakdown, top_candidates (always empty) and outreach_performance
    * (total_sent, and a response rate and pending count that are always 0). */
  datatype ReportDetail = ReportDetail(date: string, summary: Metrics, jobBreakdown: seq<JobMetrics>, totalSent: nat)

  /** The dictionary handed to `save_daily_report`: the four counts when they
    * are among its top-level keys, and the nested report when it is one.
    * `get_daily_metrics`'s result is `ReportArg(Some(m), None)`. */
  datatype ReportArg = ReportArg(counts: Option<Metrics>, detail: Option<ReportDetail>)

  /** A row of the `daily_reports` table. */
  datatype ReportRow = ReportRow(counts: Metrics, reportData: ReportArg)

  const ShortlistScore: real := 0.7

  // ------------------------------------------------------------------ jobs

  /** `json.loads` of a list column; every column the store writes decodes
    * (`AddJobRoundTrip`, `RowOf`), so the fallback is never taken. */
  function DecodeList(text: string): (r: seq<string>)
    ensures Decode(text).Some? ==> r == Decode(text).value
  {
    Decode(text).GetOr([])
  }

  function JobOf(id: nat, row: JobRow): (j: Job)
    ensures j.id == id && j.status == row.status
  {
    Job(id, row.title, row.company, row.description, DecodeList(row.requiredSkillsJson),
        row.experienceLevel, row.location, row.status)
  }

  /** The jobs with `status`, newest (highest id) first. */
  function JobsWithStatus(rows: seq<JobRow>, status: string): (r: seq<Job>)
    ensures |r| <= |rows|
  {
    if |rows| == 0 then []
    else
      var init := rows[..|rows| - 1];
      var last := rows[|rows| - 1];
      (if last.status == status then [JobOf(|rows|, last)] else []) + JobsWithStatus(init, status)
  }

  /** Each job of `r` is the row its id names, and has the status. */
  predicate FromRows(r: seq<Job>, rows: seq<JobRow>, status: string)
  {
    forall j :: j in r ==> 1 <= j.id <= |rows| && j.status == status && j == JobOf(j.id, rows[j.id - 1])
  }

  /** Ids strictly decrease along `r`. */
  predicate NewestFirst(r: seq<Job>)
  {
    forall a, b :: 0 <= a < b < |r| ==> r[a].id > r[b].id
  }

  /** Each listed job is the row its id names, and has the status. */
  lemma {:induction false} JobsWithStatusRows(rows: seq<JobRow>, status: string)
    ensures FromRows(JobsWithStatus(rows, status), rows, status)
    decreases |rows|
  {
    if |rows| > 0 {
      var init := rows[..|rows| - 1];
      var last := rows[|rows| - 1];
      var tail := JobsWithStatus(init, status);
      JobsWithStatusRows(init, status);
      FromRowsGrow(tail, rows, status);
      if last.status == status {
        assert JobsWithStatus(rows, status) == [JobOf(|rows|, last)] + tail;
      } else {
        assert JobsWithStatus(rows, status) == tail;
      }
    }
  }

  /** Jobs drawn from all rows but the last are drawn from all rows, and so is
    * the job of the last row when it has the status. */
  lemma FromRowsGrow(tail: seq<Job>, rows: seq<JobRow>, status: string)
    requires |rows| > 0 && FromRows(tail, rows[..|rows| - 1], status)
    ensures FromRows(tail, rows, status)
    ensures rows[|rows| - 1].status == status ==> FromRows([JobOf(|rows|, rows[|rows| - 1])] + tail, rows, status)
  {
    var init := rows[..|rows| - 1];
    forall j | j in tail
      ensures 1 <= j.id <= |rows| && j.status == status && j == JobOf(j.id, rows[j.id - 1])
    {
      assert rows[j.id - 1] == init[j.id - 1];
    }
  }

  /** The ids listed are those of rows. */
  lemma {:induction false} JobIdsInRange(rows: seq<JobRow>, status: string)
    ensures forall j :: j in JobsWithStatus(rows, status) ==> 1 <= j.id <= |rows|
    decreases |rows|
  {
    if |rows| > 0 {
      var init := rows[..|rows| - 1];
      var last := rows[|rows| - 1];
      JobIdsInRange(init, status);
      var head := if last.status == status then [JobOf(|rows|, last)] else [];
      assert JobsWithStatus(rows, status) == head + JobsWithStatus(init, status);
    }
  }

  lemma NewestCons(x: Job, tail: seq<Job>)
    requires NewestFirst(tail)
    requires forall j :: j in tail ==> j.id < x.id
    ensures NewestFirst([x] + tail)
  {
    var r := [x] + tail;
    forall a, b | 0 <= a < b < |r|
      ensures r[a].id > r[b].id
    {
      assert r[b] == tail[b - 1];
      if a > 0 {
        assert r[a] == tail[a - 1];
      }
    }
  }

  /** The list is newest first. */
  lemma {:induction false} JobsNewestFirst(rows: seq<JobRow>, status: string)
    ensures NewestFirst(JobsWithStatus(rows, status))
    decreases |rows|
  {
    if |rows| > 0 {
      var init := rows[..|rows| - 1];
      var last := rows[|rows| - 1];
      var tail := JobsWithStatus(init, status);
      JobsNewestFirst(init, status);
      if last.status == status {
        JobIdsInRange(init, status);
        NewestCons(JobOf(|rows|, last), tail);
      } else {
        assert JobsWithStatus(rows, status) == tail;
      }
    }
  }

  /** Every job with the status is listed. */
  lemma {:induction false} JobListed(rows: seq<JobRow>, status: string, id: nat)
    requires 1 <= id <= |rows| && rows[id - 1].status == status
    ensures JobOf(id, rows[id - 1]) in JobsWithStatus(rows, status)
    decreases |rows|
  {
    if id < |rows| {
      var init := rows[..|rows| - 1];
      JobListed(init, status, id);
    }
  }

  /** The skills of a job added as active come back unchanged, at the head
    * of the active list (the JSON round trip of the skills column). */
  lemma AddJobRoundTrip(rows: seq<JobRow>, title: string, company: string, description: string,
                        skills: seq<string>, level: string, location: string)
    ensures var rows' := rows + [JobRow(title, company, description, Encode(skills), level, location, "active")];
      var r := JobsWithStatus(rows', "active");
      |r| > 0 && r[0] == Job(|rows'|, title, company, description, skills, level, location, "active")
  {
    EncodeDecode(skills);
    var rows' := rows + [JobRow(title, company, description, Encode(skills), level, location, "active")];
    assert rows'[..|rows'| - 1] == rows;
  }

  // ------------------------------------------------------------ candidates

  /** The position of the row holding `email`, if any. */
  function EmailIndex(rows: seq<CandidateRow>, email: string): (r: Option<nat>)
    ensures r.Some? ==> r.value < |rows| && rows[r.value].email == email
    ensures r.Some? ==> forall k :: 0 <= k < r.value ==> rows[k].email != email
    ensures r.None? <==> forall k :: 0 <= k < |rows| ==> rows[k].email != email
  {
    if |rows| == 0 then None
    else if rows[0].email == email then Some(0)
    else match EmailIndex(rows[1..], email)
      case None => None
      case Some(k) => Some(k + 1)
  }

  predicate EmailsUnique(rows: seq<CandidateRow>)
  {
    forall a, b :: 0 <= a < b < |rows| ==> rows[a].email != rows[b].email
  }

  function RowOf(c: Candidate, today: string): (row: CandidateRow)
    ensures row.email == c.email && row.jobId == c.jobId && row.matchScore == c.matchScore
    ensures row.sourcedDate == today && row.lastContacted.None?
    ensures DecodeList(row.skillsJson) == c.skills
  {
    EncodeDecode(c.skills);
    CandidateRow(c.name, c.email, c.linkedinUrl, Encode(c.skills), c.experienceYears, c.location,
                 c.summary, c.matchScore, c.jobId, today, None, c.responseStatus, c.notes)
  }

  function ViewOf(id: nat, row: CandidateRow): (v: CandidateView)
    ensures v.id == id && v.row == row
  {
    CandidateView(id, row, DecodeList(row.skillsJson))
  }

  /** The candidates of one job, in id order. */
  function CandidatesOfJob(rows: seq<CandidateRow>, jobId: int): (r: seq<CandidateView>)
    ensures |r| <= |rows|
  {
    if |rows| == 0 then []
    else
      var init := rows[..|rows| - 1];
      var last := rows[|rows| - 1];
      CandidatesOfJob(init, jobId) + (if last.jobId == jobId then [ViewOf(|rows|, last)] else [])
  }

  /** Each listed candidate is the row its id names, and belongs to the job. */
  lemma {:induction false} CandidatesOfJobRows(rows: seq<CandidateRow>, jobId: int)
    ensures forall v :: v in CandidatesOfJob(rows, jobId) ==>
      1 <= v.id <= |rows| && v.row == rows[v.id - 1] && v.row.jobId == jobId && v == ViewOf(v.id, v.row)
    decreases |rows|
  {
    if |rows| > 0 {
      var init := rows[..|rows| - 1];
      var last := rows[|rows| - 1];
      var front := CandidatesOfJob(init, jobId);
      CandidatesOfJobRows(init, jobId);
      var back := if last.jobId == jobId then [ViewOf(|rows|, last)] else [];
      assert CandidatesOfJob(rows, jobId) == front + back;
      forall v: CandidateView | v in front + back
        ensures 1 <= v.id <= |rows| && v.row == rows[v.id - 1] && v.row.jobId == jobId && v == ViewOf(v.id, v.row)
      {
        if v in front {
          assert rows[v.id - 1] == init[v.id - 1];
        }
      }
    }
  }

  lemma CandidatesOfJobStep(rows: seq<CandidateRow>, jobId: int, i: nat)
    requires i < |rows|
    ensures CandidatesOfJob(rows[..i + 1], jobId) ==
      CandidatesOfJob(rows[..i], jobId) + (if rows[i].jobId == jobId then [ViewOf(i + 1, rows[i])] else [])
  {
    assert rows[..i + 1][..i] == rows[..i];
  }

  /** Every candidate of the job is listed. */
  lemma {:induction false} CandidateListed(rows: seq<CandidateRow>, jobId: int, id: nat)
    requires 1 <= id <= |rows| && rows[id - 1].jobId == jobId
    ensures ViewOf(id, rows[id - 1]) in CandidatesOfJob(rows, jobId)
    decreases |rows|
  {
    var init := rows[..|rows| - 1];
    var last := rows[|rows| - 1];
    var r := CandidatesOfJob(rows, jobId);
    var front := CandidatesOfJob(init, jobId);
    assert r == front + (if last.jobId == jobId then [ViewOf(|rows|, last)] else []);
    if id < |rows| {
      CandidateListed(init, jobId, id);
      assert rows[id - 1] == init[id - 1];
      var k :| 0 <= k < |front| && front[k] == ViewOf(id, rows[id - 1]);
      assert r[k] == front[k];
    } else {
      assert r[|r| - 1] == ViewOf(id, rows[id - 1]);
    }
  }

  function MatchScoreKey(v: CandidateView): real { v.row.matchScore }

  /** `get_candidates_by_job` without a limit: the job's candidates by descending score. */
  function ByJob(rows: seq<CandidateRow>, jobId: int): (r: seq<CandidateView>)
    ensures SortedDesc(r, MatchScoreKey)
    ensures multiset(r) == multiset(CandidatesOfJob(rows, jobId))
  {
    SortDesc(CandidatesOfJob(rows, jobId), MatchScoreKey)
  }

  /** `LIMIT` as the query string builds it: applied when `limit` is truthy;
    * SQLite reads a negative limit as no limit. */
  function Limited<T>(xs: seq<T>, limit: int): (r: seq<T>)
    ensures limit <= 0 ==> r == xs
    ensures limit > 0 ==> r == xs[..if limit < |xs| then limit else |xs|]
  {
    if limit > 0 && limit < |xs| then xs[..limit] else xs
  }

  function StatusIs(status: string): CandidateRow -> bool
  {
    (row: CandidateRow) => row.responseStatus == status
  }

  /** The candidates sourced on `date`. */
  function SourcedOn(date: string): CandidateRow -> bool
  {
    (row: CandidateRow) => row.sourcedDate == date
  }

  /** The candidates sourced on `date` whose score is above the shortlist mark. */
  function ShortlistedOn(date: string): CandidateRow -> bool
  {
    (row: CandidateRow) => row.sourcedDate == date && row.matchScore > ShortlistScore
  }

  function LoggedOn(date: string): OutreachRow -> bool
  {
    (o: OutreachRow) => o.date == date
  }

  function RespondedOn(date: string): CandidateRow -> bool
  {
    (row: CandidateRow) => row.responseStatus == "responded" && row.lastContacted == Some(date)
  }

  /** The four counts of a day; the shortlisted candidates are among the sourced ones. */
  function DailyMetrics(rows: seq<CandidateRow>, log: seq<OutreachRow>, date: string): (m: Metrics)
    ensures m.shortlisted <= m.sourced <= |rows|
    ensures m.contacted <= |log| && m.responses <= |rows|
  {
    FilterStronger(rows, SourcedOn(date), ShortlistedOn(date));
    Metrics(|Filter(rows, SourcedOn(date))|, |Filter(rows, ShortlistedOn(date))|,
            |Filter(log, LoggedOn(date))|, |Filter(rows, RespondedOn(date))|)
  }

  /** The position of the latest log row for a candidate, if any. */
  function LastLogOf(log: seq<OutreachRow>, candidateId: int): (r: Option<nat>)
    ensures r.Some? ==> r.value < |log| && log[r.value].candidateId == candidateId
    ensures r.Some? ==> forall k :: r.value < k < |log| ==> log[k].candidateId != candidateId
    ensures r.None? <==> forall k :: 0 <= k < |log| ==> log[k].candidateId != candidateId
  {
    if |log| == 0 then None
    else if log[|log| - 1].candidateId == candidateId then Some(|log| - 1)
    else LastLogOf(log[..|log| - 1], candidateId)
  }

  /** What logging an outreach does to the candidates: the one whose id is
    * `candidateId`, if any, is marked contacted on `today`. */
  function Contact(cands: seq<CandidateRow>, candidateId: int, today: string): (r: seq<CandidateRow>)
    ensures |r| == |cands|
    ensures forall k :: 0 <= k < |cands| && k + 1 != candidateId ==> r[k] == cands[k]
    ensures 1 <= candidateId <= |cands| ==>
      r[candidateId - 1] == cands[candidateId - 1].(lastContacted := Some(today), responseStatus := "contacted")
  {
    if 1 <= candidateId <= |cands| then
      cands[candidateId - 1 := cands[candidateId - 1].(lastContacted := Some(today), responseStatus := "contacted")]
    else cands
  }

  /** The candidates after the outreach rows `rows` are logged in order. */
  function ContactAll(cands: seq<CandidateRow>, rows: seq<OutreachRow>): (r: seq<CandidateRow>)
    ensures |r| == |cands|
  {
    if |rows| == 0 then cands
    else
      var last := rows[|rows| - 1];
      Contact(ContactAll(cands, rows[..|rows| - 1]), last.candidateId, last.date)
  }

  lemma ContactAllSnoc(cands: seq<CandidateRow>, rows: seq<OutreachRow>, row: OutreachRow)
    ensures ContactAll(cands, rows + [row]) == Contact(ContactAll(cands, rows), row.candidateId, row.date)
  {
    assert (rows + [row])[..|rows|] == rows;
  }

  /** Every row of `rows` is dated `today`. */
  predicate AllDated(rows: seq<OutreachRow>, today: string)
  {
    forall j :: 0 <= j < |rows| ==> rows[j].date == today
  }

  /** After logging rows all dated `today`, a candidate some row names is
    * marked contacted on `today` and every other candidate is unchanged. */
  lemma {:induction false} ContactAllAt(cands: seq<CandidateRow>, rows: seq<OutreachRow>, today: string, k: nat)
    requires k < |cands|
    requires AllDated(rows, today)
    ensures (exists j :: 0 <= j < |rows| && rows[j].candidateId == k + 1) ==>
      ContactAll(cands, rows)[k] == cands[k].(lastContacted := Some(today), responseStatus := "contacted")
    ensures (forall j :: 0 <= j < |rows| ==> rows[j].candidateId != k + 1) ==>
      ContactAll(cands, rows)[k] == cands[k]
    decreases |rows|
  {
    if |rows| > 0 {
      var init := rows[..|rows| - 1];
      var last := rows[|rows| - 1];
      ContactAllAt(cands, init, today, k);
      if last.candidateId != k + 1 {
        if j :| 0 <= j < |rows| && rows[j].candidateId == k + 1 {
          assert init[j].candidateId == k + 1;
        }
        forall j | 0 <= j < |init|
          ensures init[j] == rows[j]
        {
        }
      }
    }
  }

  // --------------------------------------------------------------- reports

  class HRDatabase {
    var jobs: seq<JobRow>
    var candidates: seq<CandidateRow>
    var outreach: seq<OutreachRow>
    var reports: map<string, ReportRow>

    /** No two candidates share an email (the `UNIQUE` constraint). */
    ghost predicate Valid()
      reads this
    {
      EmailsUnique(candidates)
    }

    /** `init_database` on a fresh file: every table empty. */
    constructor ()
      ensures Valid()
      ensures jobs == [] && candidates == [] && outreach == [] && reports == map[]
    {
      jobs := [];
      candidates := [];
      outreach := [];
      reports := map[];
    }

    /** `add_job`: a new active job whose skills column is their JSON text. */
    method AddJob(title: string, company: string, description: string, requiredSkills: seq<string>,
                  experienceLevel: string, location: string) returns (id: nat)
      requires Valid()
      modifies this
      ensures Valid()
      ensures jobs == old(jobs) + [JobRow(title, company, description, Encode(requiredSkills),
                                         experienceLevel, location, "active")]
      ensures id == |jobs|
      ensures candidates == old(candidates) && outreach == old(outreach) && reports == old(reports)
    {
      jobs := jobs + [JobRow(title, company, description, Encode(requiredSkills),
                             experienceLevel, location, "active")];
      id := |jobs|;
    }

    /** `get_jobs`: the jobs with `status`, newest first, skills decoded. */
    method GetJobs(status: string) returns (r: seq<Job>)
      ensures r == JobsWithStatus(jobs, status)
    {
      r := [];
      for i := 0 to |jobs|
        invariant r == JobsWithStatus(jobs[..i], status)
      {
        assert jobs[..i + 1][..i] == jobs[..i];
        if jobs[i].status == status {
          var skills := DecodeList(jobs[i].requiredSkillsJson);
          r := [Job(i + 1, jobs[i].title, jobs[i].company, jobs[i].description, skills,
                    jobs[i].experienceLevel, jobs[i].location, jobs[i].status)] + r;
        }
      }
      assert jobs[..|jobs|] == jobs;
    }

    /** The position of the candidate holding `email`. */
    method FindEmail(email: string) returns (r: Option<nat>)
      ensures r == EmailIndex(candidates, email)
    {
      var k := 0;
      while k < |candidates| && candidates[k].email != email
        invariant 0 <= k <= |candidates|
        invariant forall j :: 0 <= j < k ==> candidates[j].email != email
      {
        k := k + 1;
      }
      r := if k < |candidates| then Some(k) else None;
    }

    /** `add_candidate`: an email already stored gives that row's id and
      * changes nothing; otherwise a row stamped `today` is appended. */
    method AddCandidate(c: Candidate, today: string) returns (id: nat)
      requires Valid()
      modifies this
      ensures Valid()
      ensures EmailIndex(old(candidates), c.email).Some? ==>
        candidates == old(candidates) && id == EmailIndex(old(candidates), c.email).value + 1
      ensures EmailIndex(old(candidates), c.email).None? ==>
        candidates == old(candidates) + [RowOf(c, today)] && id == |candidates|
      ensures 1 <= id <= |candidates| && candidates[id - 1].email == c.email
      ensures jobs == old(jobs) && outreach == old(outreach) && reports == old(reports)
    {
      var existing := FindEmail(c.email);
      if existing.Some? {
        id := existing.value + 1;
      } else {
        candidates := candidates + [RowOf(c, today)];
        id := |candidates|;
      }
    }

    /** `log_outreach`: one log row, and the candidate (if any) marked
      * contacted `today`, whatever its status was. */
    method LogOutreach(candidateId: int, jobId: int, message: string, platform: string,
                       status: string, today: string) returns (logId: nat)
      requires Valid()
      modifies this
      ensures Valid()
      ensures outreach == old(outreach) + [OutreachRow(candidateId, jobId, today, message, platform, status, "")]
      ensures logId == |outreach|
      ensures 1 <= candidateId <= |old(candidates)| ==>
        candidates == old(candidates)[candidateId - 1 :=
          old(candidates)[candidateId - 1].(lastContacted := Some(today), responseStatus := "contacted")]
      ensures !(1 <= candidateId <= |old(candidates)|) ==> candidates == old(candidates)
      ensures candidates == Contact(old(candidates), candidateId, today)
      ensures jobs == old(jobs) && reports == old(reports)
    {
      outreach := outreach + [OutreachRow(candidateId, jobId, today, message, platform, status, "")];
      if 1 <= candidateId <= |candidates| {
        var row := candidates[candidateId - 1];
        candidates := candidates[candidateId - 1 := row.(lastContacted := Some(today), responseStatus := "contacted")];
      }
      logId := |outreach|;
    }

    /** `update_candidate_response`: the candidate's status, and with a
      * non-empty response its latest log row marked responded. */
    method UpdateCandidateResponse(candidateId: int, status: string, responseContent: string)
      requires Valid()
      modifies this
      ensures Valid()
      ensures 1 <= candidateId <= |old(candidates)| ==>
        candidates == old(candidates)[candidateId - 1 := old(candidates)[candidateId - 1].(responseStatus := status)]
      ensures !(1 <= candidateId <= |old(candidates)|) ==> candidates == old(candidates)
      ensures responseContent != "" && LastLogOf(old(outreach), candidateId).Some? ==>
        var k := LastLogOf(old(outreach), candidateId).value;
        outreach == old(outreach)[k := old(outreach)[k].(responseContent := responseContent, status := "responded")]
      ensures responseContent == "" || LastLogOf(old(outreach), candidateId).None? ==> outreach == old(outreach)
      ensures jobs == old(jobs) && reports == old(reports)
    {
      if 1 <= candidateId <= |candidates| {
        candidates := candidates[candidateId - 1 := candidates[candidateId - 1].(responseStatus := status)];
      }
      if responseContent != "" {
        var k := FindLastLog(candidateId);
        if k.Some? {
          outreach := outreach[k.value := outreach[k.value].(responseContent := responseContent, status := "responded")];
        }
      }
    }

    /** The latest outreach row of a candidate, searched from the end. */
    method FindLastLog(candidateId: int) returns (r: Option<nat>)
      ensures r == LastLogOf(outreach, candidateId)
    {
      var k := |outreach|;
      while k > 0 && outreach[k - 1].candidateId != candidateId
        invariant 0 <= k <= |outreach|
        invariant LastLogOf(outreach, candidateId) == LastLogOf(outreach[..k], candidateId)
      {
        assert outreach[..k][..k - 1] == outreach[..k - 1];
        k := k - 1;
      }
      r := if k > 0 then Some(k - 1) else None;
      assert k > 0 ==> outreach[..k][..k - 1] == outreach[..k - 1];
    }

    /** `get_candidates_by_job`: the job's candidates by descending score,
      * cut to `limit` when it is truthy. */
    method GetCandidatesByJob(jobId: int, limit: int) returns (r: seq<CandidateView>)
      ensures r == Limited(ByJob(candidates, jobId), limit)
    {
      var rows := RowsOfJob(jobId);
      r := Limited(SortDesc(rows, MatchScoreKey), limit);
    }

    /** The `WHERE job_id = ?` scan, in id order. */
    method RowsOfJob(jobId: int) returns (rows: seq<CandidateView>)
      ensures rows == CandidatesOfJob(candidates, jobId)
    {
      rows := [];
      for i := 0 to |candidates|
        invariant rows == CandidatesOfJob(candidates[..i], jobId)
      {
        CandidatesOfJobStep(candidates, jobId, i);
        if candidates[i].jobId == jobId {
          rows := rows + [ViewOf(i + 1, candidates[i])];
        }
      }
      assert candidates[..|candidates|] == candidates;
    }

    /** `get_daily_metrics` for `date`, or for today when it is empty. */
    method GetDailyMetrics(date: string, today: string) returns (m: Metrics)
      ensures m == DailyMetrics(candidates, outreach, if date == "" then today else date)
    {
      var day := if date == "" then today else date;
      m := DailyMetrics(candidates, outreach, day);
    }

    /** `save_daily_report`: the counts are read from the top level of the
      * dictionary; without them the call fails with a `KeyError` and
      * nothing is stored. One row per date: a later save replaces it. */
    method SaveDailyReport(arg: ReportArg, date: string, today: string) returns (r: Result<(), string>)
      modifies this
      ensures r.Success? <==> arg.counts.Some?
      ensures arg.counts.Some? ==>
        reports == old(reports)[(if date == "" then today else date) := ReportRow(arg.counts.value, arg)]
      ensures arg.counts.None? ==> reports == old(reports) && r == Failure("KeyError: 'candidates_sourced'")
      ensures jobs == old(jobs) && candidates == old(candidates) && outreach == old(outreach)
    {
      var day := if date == "" then today else date;
      if arg.counts.None? {
        return Failure("KeyError: 'candidates_sourced'");
      }
      reports := reports[day := ReportRow(arg.counts.value, arg)];
      r := Success(());
    }
  }

  /** The candidates `get_candidates_by_job` returns belong to the job, are
    * non-increasing by score, number at most `limit` when it is positive, and
    * are all of the job's candidates when no limit applies. */
  lemma CandidatesByJobProperties(rows: seq<CandidateRow>, jobId: int, limit: int)
    ensures var r := Limited(SortDesc(CandidatesOfJob(rows, jobId), MatchScoreKey), limit);
      SortedDesc(r, MatchScoreKey) &&
      (forall v :: v in r ==> v.row.jobId == jobId && 1 <= v.id <= |rows| && v.row == rows[v.id - 1]) &&
      (limit > 0 ==> |r| <= limit) &&
      (limit <= 0 ==> multiset(r) == multiset(CandidatesOfJob(rows, jobId)))
  {
    var all := CandidatesOfJob(rows, jobId);
    var s := SortDesc(all, MatchScoreKey);
    var r := Limited(s, limit);
    assert r == s[..|r|];
    SortedPrefix(all, MatchScoreKey, |r|);
    CandidatesOfJobRows(rows, jobId);
    forall v | v in r
      ensures v.row.jobId == jobId && 1 <= v.id <= |rows| && v.row == rows[v.id - 1]
    {
      assert v in multiset(r);
      assert v in multiset(all);
    }
  }
}
