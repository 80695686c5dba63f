/** The executive summary of the report generator: the overall response and
  * contact rates, today's activity, the three best jobs and the
  * recommendations. The pipeline status and today's metrics are its inputs
  * (`HrAgent.HRRecruitmentAgent.GetPipelineStatus`, `HrStore.DailyMetrics`). */
module Reporting {
  import opened Text
  import opened Seqs
  import opened Ratios
  import opened HrStore
  import opened HrAgent

  /** `n / d * 100`, or 0 when `d` is 0. */
  function Percentage(n: nat, d: nat): (r: real)
    ensures d == 0 ==> r == 0.0
    ensures n == 0 ==> r == 0.0
    ensures n <= d ==> 0.0 <= r <= 100.0
    ensures 0 < d && n == d ==> r == 100.0
    ensures 0 < n <= d ==> r > 0.0
  {
    if d > 0 then
      RatioPositive(n as real, d as real);
      if n <= d then
        RatioAtMostOne(n as real, d as real);
        RatioOne(n as real, d as real);
        n as real / d as real * 100.0
      else n as real / d as real * 100.0
    else 0.0
  }

  /** `f"{n / d * 100:.1f}%"` with 0 for an empty whole, as tenths of a
    * percent. */
  function ShownPercent(n: nat, d: nat): (t: nat)
    ensures d == 0 ==> t == 0
    ensures n <= d ==> t <= 1000
    ensures 0 < d ==> 2 * d * t <= 2000 * n + d < 2 * d * t + 2 * d
  {
    if d > 0 then
      if n <= d then PercentTenthsBounds(n, d); PercentTenths(n, d) else PercentTenths(n, d)
    else 0
  }

  /** The overview's two rates are the one-decimal texts, held as tenths. */
  datatype Overview = Overview(activeJobs: nat, totalCandidates: nat, responseRate: nat, contactRate: nat)

  datatype TodayPerformance = TodayPerformance(
    candidatesSourced: nat, candidatesShortlisted: nat, outreachSent: nat, responsesReceived: nat)

  datatype TopJob = TopJob(title: string, candidates: nat, responseRate: real)

  datatype ExecutiveSummary = ExecutiveSummary(
    overview: Overview, todayPerformance: TodayPerformance,
    topPerformingJobs: seq<TopJob>, recommendations: seq<string>)

  // ---------------------------------------------------------- top jobs

  /** `float(job_detail['response_rate'].rstrip('%'))`: "0%" reads as 0,
    * and a shown percentage as its one-decimal value. */
  function RateValue(r: Rate): (v: real)
    ensures r.ZeroPercent? ==> v == 0.0
    ensures r.Percent? ==> 10.0 * v == r.tenths as real
  {
    match r
    case ZeroPercent => 0.0
    case Percent(t) => t as real / 10.0
  }

  /** Rates that round to the same tenth read back equal, so the candidate
    * count decides between them: 1 of 3 and 333 of 1000 both read 33.3. */
  lemma RoundedRatesTie()
    ensures RateValue(Percent(PercentTenths(1, 3))) == RateValue(Percent(PercentTenths(333, 1000))) == 33.3
  {
  }

  predicate HasCandidates(d: JobDetail) { d.candidates > 0 }

  function TopJobOf(d: JobDetail): TopJob
  {
    TopJob(d.title, d.candidates, RateValue(d.responseRate))
  }

  /** `jobs_with_metrics`: the jobs with candidates, in pipeline order. */
  function Qualifying(details: seq<JobDetail>): (r: seq<TopJob>)
    ensures |r| == |Filter(details, HasCandidates)|
    ensures forall i :: 0 <= i < |r| ==> r[i] == TopJobOf(Filter(details, HasCandidates)[i])
  {
    Map(Filter(details, HasCandidates), TopJobOf)
  }

  lemma QualifyingStep(details: seq<JobDetail>, i: nat)
    requires i < |details|
    ensures Qualifying(details[..i + 1]) ==
      Qualifying(details[..i]) + (if HasCandidates(details[i]) then [TopJobOf(details[i])] else [])
  {
    FilterSnoc(details, i, HasCandidates);
    var f := Filter(details[..i], HasCandidates);
    if HasCandidates(details[i]) {
      MapAppend(f, [details[i]], TopJobOf);
      MapSingle(details[i], TopJobOf);
    } else {
      assert f + [] == f;
    }
  }

  /** The sort key `(response_rate, candidates)`, compared from the largest. */
  predicate AtLeast(a: TopJob, b: TopJob)
  {
    a.responseRate > b.responseRate || (a.responseRate == b.responseRate && a.candidates >= b.candidates)
  }

  predicate SameKey(a: TopJob, b: TopJob)
  {
    a.responseRate == b.responseRate && a.candidates == b.candidates
  }

  predicate SortedJobs(xs: seq<TopJob>)
  {
    forall i, j :: 0 <= i < j < |xs| ==> AtLeast(xs[i], xs[j])
  }

  lemma ConsSortedJobs(h: TopJob, rest: seq<TopJob>)
    requires SortedJobs(rest)
    requires |rest| > 0 ==> AtLeast(h, rest[0])
    ensures SortedJobs([h] + rest)
  {
    var r := [h] + rest;
    forall i, j | 0 <= i < j < |r|
      ensures AtLeast(r[i], r[j])
    {
      if i == 0 {
        assert r[j] == rest[j - 1];
        assert AtLeast(rest[0], rest[j - 1]) || j - 1 == 0;
      } else {
        assert r[i] == rest[i - 1] && r[j] == rest[j - 1];
      }
    }
  }

  lemma TailSortedJobs(xs: seq<TopJob>)
    requires |xs| > 0 && SortedJobs(xs)
    ensures SortedJobs(xs[1..])
  {
    var tail := xs[1..];
    forall i, j | 0 <= i < j < |tail|
      ensures AtLeast(tail[i], tail[j])
    {
      assert tail[i] == xs[i + 1] && tail[j] == xs[j + 1];
    }
  }

  /** Places `x` after every job whose key is at least its own. */
  function InsertJob(x: TopJob, xs: seq<TopJob>): (r: seq<TopJob>)
    ensures |r| == |xs| + 1
    decreases |xs|
  {
    if |xs| == 0 then [x]
    else if AtLeast(xs[0], x) then [xs[0]] + InsertJob(x, xs[1..])
    else [x] + xs
  }

  lemma InsertJobHead(x: TopJob, xs: seq<TopJob>)
    ensures InsertJob(x, xs)[0] == x || (|xs| > 0 && InsertJob(x, xs)[0] == xs[0])
  {
  }

  lemma {:induction false} InsertJobSorted(x: TopJob, xs: seq<TopJob>)
    requires SortedJobs(xs)
    ensures SortedJobs(InsertJob(x, xs))
    decreases |xs|
  {
    if |xs| > 0 {
      if AtLeast(xs[0], x) {
        var tail := xs[1..];
        TailSortedJobs(xs);
        InsertJobSorted(x, tail);
        var rest := InsertJob(x, tail);
        InsertJobHead(x, tail);
        assert |tail| > 0 ==> AtLeast(xs[0], tail[0]) by {
          if |tail| > 0 {
            assert tail[0] == xs[1];
          }
        }
        ConsSortedJobs(xs[0], rest);
      } else {
        ConsSortedJobs(x, xs);
      }
    }
  }

  lemma {:induction false} InsertJobPerm(x: TopJob, xs: seq<TopJob>)
    ensures multiset(InsertJob(x, xs)) == multiset(xs) + multiset{x}
    decreases |xs|
  {
    if |xs| > 0 {
      if AtLeast(xs[0], x) {
        var tail := xs[1..];
        InsertJobPerm(x, tail);
        assert xs == [xs[0]] + tail;
        assert multiset([xs[0]] + InsertJob(x, tail)) == multiset{xs[0]} + multiset(InsertJob(x, tail));
        assert multiset(xs) == multiset{xs[0]} + multiset(tail);
      } else {
        assert multiset([x] + xs) == multiset{x} + multiset(xs);
      }
    }
  }

  /** `jobs.sort(key=lambda x: (x['response_rate'], x['candidates']),
    * reverse=True)`: insertion of each job into the sorted earlier ones. */
  function SortJobs(xs: seq<TopJob>): (r: seq<TopJob>)
    ensures |r| == |xs|
    decreases |xs|
  {
    if |xs| == 0 then [] else InsertJob(xs[|xs| - 1], SortJobs(xs[..|xs| - 1]))
  }

  /** The sort orders from the largest key... */
  lemma {:induction false} SortJobsSorted(xs: seq<TopJob>)
    ensures SortedJobs(SortJobs(xs))
    decreases |xs|
  {
    if |xs| > 0 {
      SortJobsSorted(xs[..|xs| - 1]);
      InsertJobSorted(xs[|xs| - 1], SortJobs(xs[..|xs| - 1]));
    }
  }

  /** ...and loses or adds no job. */
  lemma {:induction false} SortJobsPerm(xs: seq<TopJob>)
    ensures multiset(SortJobs(xs)) == multiset(xs)
    decreases |xs|
  {
    if |xs| > 0 {
      var init := xs[..|xs| - 1];
      var last := xs[|xs| - 1];
      calc {
        multiset(SortJobs(xs));
        multiset(InsertJob(last, SortJobs(init)));
        { InsertJobPerm(last, SortJobs(init)); }
        multiset(SortJobs(init)) + multiset{last};
        { SortJobsPerm(init); }
        multiset(init) + multiset{last};
        multiset(init + [last]);
        { assert xs == init + [last]; }
        multiset(xs);
      }
    }
  }

  /** The jobs sharing `k`'s key, in order. */
  function KeyRun(xs: seq<TopJob>, k: TopJob): (r: seq<TopJob>)
    ensures |r| <= |xs|
  {
    if |xs| == 0 then []
    else (if SameKey(xs[0], k) then [xs[0]] else []) + KeyRun(xs[1..], k)
  }

  lemma {:induction false} KeyRunAppend(a: seq<TopJob>, b: seq<TopJob>, k: TopJob)
    ensures KeyRun(a + b, k) == KeyRun(a, k) + KeyRun(b, k)
    decreases |a|
  {
    if |a| == 0 {
      assert a + b == b;
    } else {
      var head := if SameKey(a[0], k) then [a[0]] else [];
      assert (a + b)[0] == a[0] && (a + b)[1..] == a[1..] + b;
      KeyRunAppend(a[1..], b, k);
      assert head + (KeyRun(a[1..], k) + KeyRun(b, k)) == (head + KeyRun(a[1..], k)) + KeyRun(b, k);
    }
  }

  lemma {:induction false} KeyRunNone(xs: seq<TopJob>, k: TopJob)
    requires forall i :: 0 <= i < |xs| ==> !SameKey(xs[i], k)
    ensures KeyRun(xs, k) == []
    decreases |xs|
  {
    if |xs| > 0 {
      KeyRunNone(xs[1..], k);
    }
  }

  lemma KeyRunSingle(x: TopJob, k: TopJob)
    ensures KeyRun([x], k) == if SameKey(x, k) then [x] else []
  {
    assert [x][1..] == [];
  }

  /** Inserting `x` puts it after the jobs sharing its key. */
  lemma {:induction false} KeyRunInsert(x: TopJob, xs: seq<TopJob>, k: TopJob)
    requires SortedJobs(xs)
    ensures KeyRun(InsertJob(x, xs), k) == KeyRun(xs, k) + (if SameKey(x, k) then [x] else [])
    decreases |xs|
  {
    if |xs| == 0 {
      KeyRunSingle(x, k);
    } else if AtLeast(xs[0], x) {
      TailSortedJobs(xs);
      var rest := InsertJob(x, xs[1..]);
      assert InsertJob(x, xs) == [xs[0]] + rest;
      KeyRunInsert(x, xs[1..], k);
      KeyRunAppend([xs[0]], rest, k);
      KeyRunAppend([xs[0]], xs[1..], k);
      KeyRunSingle(xs[0], k);
      assert [xs[0]] + xs[1..] == xs;
    } else {
      assert InsertJob(x, xs) == [x] + xs;
      KeyRunAppend([x], xs, k);
      KeyRunSingle(x, k);
      if SameKey(x, k) {
        forall i | 0 <= i < |xs|
          ensures !SameKey(xs[i], k)
        {
          assert i == 0 || AtLeast(xs[0], xs[i]);
        }
        KeyRunNone(xs, k);
      }
    }
  }

  /** Stability: jobs with equal keys keep their pipeline order, as
    * Python's sort guarantees even with `reverse=True`. */
  lemma {:induction false} SortJobsStable(xs: seq<TopJob>, k: TopJob)
    ensures KeyRun(SortJobs(xs), k) == KeyRun(xs, k)
    decreases |xs|
  {
    if |xs| > 0 {
      var init := xs[..|xs| - 1];
      var last := xs[|xs| - 1];
      var sortedInit := SortJobs(init);
      calc {
        KeyRun(SortJobs(xs), k);
        == { assert SortJobs(xs) == InsertJob(last, sortedInit); }
        KeyRun(InsertJob(last, sortedInit), k);
        == { SortJobsSorted(init); KeyRunInsert(last, sortedInit, k); }
        KeyRun(sortedInit, k) + (if SameKey(last, k) then [last] else []);
        == { SortJobsStable(init, k); KeyRunSingle(last, k); }
        KeyRun(init, k) + KeyRun([last], k);
        == { KeyRunAppend(init, [last], k); }
        KeyRun(init + [last], k);
        == { assert xs == init + [last]; }
        KeyRun(xs, k);
      }
    }
  }

  /** `jobs_with_metrics[:3]` after sorting. */
  function TopJobs(details: seq<JobDetail>): (r: seq<TopJob>)
    ensures |r| <= 3
    ensures |r| == if |Qualifying(details)| < 3 then |Qualifying(details)| else 3
    ensures SortedJobs(r)
    ensures r == SortJobs(Qualifying(details))[..|r|]
  {
    var s := SortJobs(Qualifying(details));
    SortJobsSorted(Qualifying(details));
    var r := Take(s, 3);
    assert SortedJobs(r) by {
      forall i, j | 0 <= i < j < |r|
        ensures AtLeast(r[i], r[j])
      {
        assert r[i] == s[i] && r[j] == s[j];
      }
    }
    r
  }

  /** The top jobs are jobs of the pipeline with candidates. */
  lemma TopJobsFromPipeline(details: seq<JobDetail>, t: TopJob)
    requires t in TopJobs(details)
    ensures t.candidates > 0
    ensures exists d :: d in details && HasCandidates(d) && TopJobOf(d) == t
  {
    var s := SortJobs(Qualifying(details));
    SortJobsPerm(Qualifying(details));
    var r := TopJobs(details);
    assert t in s by {
      var i :| 0 <= i < |r| && r[i] == t;
      assert s[i] == t;
    }
    assert t in multiset(Qualifying(details));
    var q := Qualifying(details);
    var i :| 0 <= i < |q| && q[i] == t;
    var f := Filter(details, HasCandidates);
    assert f[i] in f;
  }

  /** No job left out of the top ranks above one kept in it. */
  lemma TopJobsAreBest(details: seq<JobDetail>, t: TopJob, j: TopJob)
    requires t in TopJobs(details) && j in Qualifying(details) && j !in TopJobs(details)
    ensures AtLeast(t, j)
  {
    var s := SortJobs(Qualifying(details));
    SortJobsPerm(Qualifying(details));
    SortJobsSorted(Qualifying(details));
    var r := TopJobs(details);
    assert j in multiset(s);
    var k :| 0 <= k < |s| && s[k] == j;
    var i :| 0 <= i < |r| && r[i] == t;
    assert s[i] == t;
  }

  // ---------------------------------------------------- recommendations

  const ImprovePersonalization := "Consider improving outreach message personalization"
  const IncreaseOutreach := "Increase outreach volume to reach more qualified candidates"
  const ReviewSourcing := "No candidates sourced today - review sourcing strategy"

  /** One message per weak figure, in this order. */
  function Recommendations(responseRate: real, contactRate: real, sourced: nat): (r: seq<string>)
    ensures ImprovePersonalization in r <==> responseRate < 20.0
    ensures IncreaseOutreach in r <==> contactRate < 50.0
    ensures ReviewSourcing in r <==> sourced == 0
    ensures |r| <= 3 && NoDups(r)
    ensures forall m :: m in r ==> m in [ImprovePersonalization, IncreaseOutreach, ReviewSourcing]
  {
    (if responseRate < 20.0 then [ImprovePersonalization] else []) +
    (if contactRate < 50.0 then [IncreaseOutreach] else []) +
    (if sourced == 0 then [ReviewSourcing] else [])
  }

  /** What `response_rate` holds once the job loop has run: the last job
    * with candidates reassigns it, so the overall rate survives only when
    * no job has candidates. */
  function ShadowedRate(details: seq<JobDetail>, overall: real): (v: real)
    ensures |Qualifying(details)| == 0 ==> v == overall
    ensures |Qualifying(details)| > 0 ==> v == Qualifying(details)[|Qualifying(details)| - 1].responseRate
  {
    var q := Qualifying(details);
    if |q| == 0 then overall else q[|q| - 1].responseRate
  }

  /** The recommendations as written: the first test reads the shadowed
    * rate rather than the overall one shown in the overview. */
  function RecommendationsAsWritten(p: Pipeline, today: Metrics): (r: seq<string>)
    ensures var q := Qualifying(p.jobsDetail);
      ImprovePersonalization in r <==>
        (if |q| == 0 then Percentage(p.respondedCandidates, p.contactedCandidates) else q[|q| - 1].responseRate) < 20.0
    ensures IncreaseOutreach in r <==> Percentage(p.contactedCandidates, p.totalCandidates) < 50.0
    ensures ReviewSourcing in r <==> today.sourced == 0
  {
    Recommendations(ShadowedRate(p.jobsDetail, Percentage(p.respondedCandidates, p.contactedCandidates)),
                    Percentage(p.contactedCandidates, p.totalCandidates), today.sourced)
  }

  /** Whenever the last job with candidates answered less than 20% while
    * the overview shows at least 20%, the code as written recommends better
    * personalisation and the overview does not call for it. */
  lemma ShadowedRateMisleads(p: Pipeline, today: Metrics)
    requires |Qualifying(p.jobsDetail)| > 0
    requires Qualifying(p.jobsDetail)[|Qualifying(p.jobsDetail)| - 1].responseRate < 20.0
    requires Percentage(p.respondedCandidates, p.contactedCandidates) >= 20.0
    ensures ImprovePersonalization in RecommendationsAsWritten(p, today)
    ensures ImprovePersonalization !in Recommendations(Percentage(p.respondedCandidates, p.contactedCandidates),
                                                       Percentage(p.contactedCandidates, p.totalCandidates), today.sourced)
  {
  }

  /** Such a pipeline: job "a" answered, job "b" (last) not; 1 of 2
    * contacted candidates responded, so the overview shows 50%. */
  lemma TwoJobsQualify(a: JobDetail, b: JobDetail)
    requires a.candidates > 0 && b.candidates > 0
    ensures Qualifying([a, b]) == [TopJobOf(a), TopJobOf(b)]
  {
    var details := [a, b];
    calc {
      Qualifying(details);
      == { assert details[..2] == details; }
      Qualifying(details[..2]);
      == { QualifyingStep(details, 1); }
      Qualifying(details[..1]) + [TopJobOf(b)];
      == { QualifyingStep(details, 0); }
      Qualifying(details[..0]) + [TopJobOf(a)] + [TopJobOf(b)];
      == { assert details[..0] == []; assert Qualifying([]) == []; }
      [TopJobOf(a), TopJobOf(b)];
    }
  }

  lemma ShadowedRateExample()
    ensures var p := Pipeline(2, 2, 2, 1, [JobDetail(1, "a", 1, 1, 1, Percent(1000)), JobDetail(2, "b", 1, 1, 0, Percent(0))]);
      Percentage(p.respondedCandidates, p.contactedCandidates) == 50.0 &&
      ImprovePersonalization in RecommendationsAsWritten(p, Metrics(1, 0, 0, 0)) &&
      ImprovePersonalization !in Recommendations(50.0, 100.0, 1)
  {
    var a := JobDetail(1, "a", 1, 1, 1, Percent(1000));
    var b := JobDetail(2, "b", 1, 1, 0, Percent(0));
    TwoJobsQualify(a, b);
    var p := Pipeline(2, 2, 2, 1, [a, b]);
    ShadowedRateMisleads(p, Metrics(1, 0, 0, 0));
  }

  // ---------------------------------------------------------- summary

  /** The job loop of `generate_executive_summary`; the job's rate goes
    * into a variable of its own. */
  method CollectJobs(details: seq<JobDetail>) returns (jobs: seq<TopJob>)
    ensures jobs == Qualifying(details)
  {
    jobs := [];
    for i := 0 to |details|
      invariant jobs == Qualifying(details[..i])
    {
      QualifyingStep(details, i);
      var d := details[i];
      if d.candidates > 0 {
        var jobRate := RateValue(d.responseRate);
        jobs := jobs + [TopJob(d.title, d.candidates, jobRate)];
      }
    }
    assert details[..|details|] == details;
  }

  /** `generate_executive_summary` over the pipeline status and today's
    * metrics, with the personalisation test reading the overall response
    * rate shown in the overview. */
  method GenerateExecutiveSummary(p: Pipeline, today: Metrics) returns (s: ExecutiveSummary)
    ensures s.overview == Overview(p.activeJobs, p.totalCandidates,
                                   ShownPercent(p.respondedCandidates, p.contactedCandidates),
                                   ShownPercent(p.contactedCandidates, p.totalCandidates))
    ensures s.todayPerformance == TodayPerformance(today.sourced, today.shortlisted, today.contacted, today.responses)
    ensures s.topPerformingJobs == TopJobs(p.jobsDetail)
    ensures s.recommendations == Recommendations(Percentage(p.respondedCandidates, p.contactedCandidates),
                                                 Percentage(p.contactedCandidates, p.totalCandidates), today.sourced)
  {
    var responseRate := Percentage(p.respondedCandidates, p.contactedCandidates);
    var contactRate := Percentage(p.contactedCandidates, p.totalCandidates);
    var overview := Overview(p.activeJobs, p.totalCandidates,
                             ShownPercent(p.respondedCandidates, p.contactedCandidates),
                             ShownPercent(p.contactedCandidates, p.totalCandidates));
    var performance := TodayPerformance(today.sourced, today.shortlisted, today.contacted, today.responses);
    var jobs := CollectJobs(p.jobsDetail);
    var top := Take(SortJobs(jobs), 3);
    var recommendations: seq<string> := [];
    if responseRate < 20.0 {
      recommendations := recommendations + [ImprovePersonalization];
    }
    if contactRate < 50.0 {
      recommendations := recommendations + [IncreaseOutreach];
    }
    if today.sourced == 0 {
      recommendations := recommendations + [ReviewSourcing];
    }
    s := ExecutiveSummary(overview, performance, top, recommendations);
  }
}
