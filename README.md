# HR recruitment agent: a verified model of its core

This project models the core of a Python HR-recruitment system in Dafny and proves properties of that model.
The system imports LinkedIn connections from CSV into a candidate database. It normalises and validates
LinkedIn profile URLs and parses résumés, with a rule-based parser and an AI parser that falls back to it.
It builds résumé PDFs from parsed data and autofills candidate forms. It matches and shortlists candidates
against job descriptions, generates outreach campaigns and sends them. It renders e-mail templates and sends
e-mails one at a time or in bulk, keeps a team roster, and produces daily and executive reports.

The model has one Dafny module per source file:

| module | source file |
|---|---|
| `Shortlisting` | candidate_shortlisting.py |
| `HrAgent` | src/hr_agent.py |
| `HrStore` | src/database.py |
| `CandidateDb` | database_manager.py |
| `BulkImport` | bulk_import_candidates.py |
| `LinkedIn` | linkedin_scraper.py |
| `ResumeParser` | resume_parser.py |
| `GeminiParser` | gemini_parser.py |
| `ResumeBuilder` | resume_builder.py |
| `Autofill` | candidate_autofill.py |
| `AiContent` | ai_content_generator.py |
| `EmailConfig` | hr_email_config.py |
| `EmailTemplates`, `Formatting` | email_templates.py (and Python's `str.format`) |
| `EmailSystem` | enhanced_email_system.py |
| `Team` | team_manager.py |
| `Reporting` | src/reporting.py |

Shared helpers live in the other modules:
- `Wrappers` has Option and Result.
- `Text` has ASCII `lower`/`upper`/`title`/`strip`/`split`/`join` and substring search.
- `Seqs` has filter, map, dedup and take.
- `Patterns` hand-codes the regular expressions the source uses.
- `Sorting` has a stable sort, with `sorted(..., reverse=True)` semantics.
- `Ratios` has rates rounded to one decimal.
- `JsonCodec` is the RFC 8259 string-array codec.
- `PyValue` models dynamically typed values with Python's truthiness and `str()`.

Stateful source objects become classes whose methods are proved against specification functions.
Examples are the candidate tables, the team roster, the e-mail log, `LinkedInProfile` and the agent.
Loops stay loops, with invariants.

Several things become parameters of the operations that use them:
- the AI services (Gemini and Ollama);
- the SMTP send;
- the profile scraper;
- the e-mail, location and current-work extractors of the résumé parser;
- PDF/DOCX text extraction;
- the clock (`datetime.now()` values);
- the settings.

## Model

| member | source | states |
|---|---|---|
| BulkImport.CleanValue | bulk_import_candidates.py:69-72 | an absent cell or a text whose lowercase is exactly "nan" becomes ""; any other text is stripped |
| BulkImport.ImportData | bulk_import_candidates.py:74-87 | the record handed to `add_candidate`: stripped full name, the URL, cleaned email, company, position and connection date, and empty location, skills and summary |
| BulkImport.NanNames | bulk_import_candidates.py:54-55 | two missing name cells make `str(nan)` twice, so the full name is "nan nan" |
| BulkImport.NanFirstName | bulk_import_candidates.py:54-55 | a missing first name and a non-blank last name give "nan " followed by the stripped last name |
| BulkImport.CountedIffAccepted | bulk_import_candidates.py:89-97 | a row that passed both checks is counted as added exactly when its name and URL are non-blank, which is when `add_candidate` returns an id |
| BulkImport.ImportRow | bulk_import_candidates.py:52-102 | one row of the loop: the result is whether the row counts as added, and every stored candidate row is kept unchanged |
| BulkImport.ImportRows | bulk_import_candidates.py:51-102 | added plus skipped is the number of rows, added is the number of rows that count, and stored rows are never changed |
| BulkImport.BulkImportCandidates | bulk_import_candidates.py:24-122 | no file: false with all counts zero and the table unchanged; otherwise true, with every row added or skipped and the stored URLs only growing |
| EmailConfig.GetAvailableTemplates | hr_email_config.py:132-134 | the template names, one per catalogue entry, in declaration order |
| EmailConfig.AvailableTemplates | hr_email_config.py:29-119 | the names are "recruitment_interest", "interview_invitation" and "follow_up", in that order |
| EmailConfig.GetEmailTemplate | hr_email_config.py:125-130 | succeeds exactly for an available name, with the template stored under it; otherwise the `ValueError` naming that template |
| EmailConfig.BuiltinLookup | hr_email_config.py:125-130 | each built-in template is returned under its own name |
| EmailConfig.LookupName | hr_email_config.py:29-119 | the template names are distinct, so a lookup by name finds that entry |
| EmailConfig.NotFoundListsAll | hr_email_config.py:128 | the error for an unknown name quotes every available template name |
| EmailConfig.CatalogueWellFormed | hr_email_config.py:29-119 | every built-in subject and body is a well-formed format string whose fields are all among the known variables |
| EmailConfig.RecruitmentInterestFields | hr_email_config.py:30-63 | every field of the recruitment-interest template is a known variable |
| EmailConfig.InterviewInvitationFields | hr_email_config.py:64-96 | every field of the interview-invitation template is a known variable |
| EmailConfig.FollowUpFields | hr_email_config.py:97-118 | every field of the follow-up template is a known variable |
| EmailConfig.VariablesAreNames | hr_email_config.py:29-119 | every known variable is a Python identifier, so `str.format` reads it as a keyword field |
| Team.Lowered | team_manager.py:96 | `member.get(key, '').lower()`: defined exactly for an absent key or a string value, and then the lower-cased rendering; a `null` or other value raises |
| Team.First | team_manager.py:80-83 | the index of the first element passing the test, and none exactly when no element passes |
| Team.Locate | team_manager.py:111-116 | the record `update_linkedin_url` settles on (by id for an int, by name for a str) is in range, or the name lookup raised |
| Team.TeamManager.constructor | team_manager.py:24-50 | the manager holds the records read from the team file |
| Team.TeamManager.GetTeamMemberById | team_manager.py:70-83 | none exactly when no record's id equals `member_id` under Python's `==` (an integer id, or a float or boolean id with that value); otherwise the first such record |
| Team.NumericIdsMatch | team_manager.py:81 | a record whose id was stored as `1.0` or `true` is found for id 1, and one whose id is the string "1" is not |
| Team.TeamManager.GetTeamMemberByName | team_manager.py:85-98 | the first record whose name equals the query ignoring case; none exactly when no record stops the scan; an `AttributeError` when a non-string name is reached first |
| Team.TeamManager.UpdateLinkedinUrl | team_manager.py:100-126 | a found, non-empty record gets the URL and the time `now` and the result is true; no record, an empty one or a raising lookup changes nothing |
| Team.UpdatedFoundById | team_manager.py:100-123 | after an update by id, the same id still finds the record, which now holds the URL and the time |
| Team.UpdatedHasLinkedin | team_manager.py:118-146 | a non-empty URL puts the updated record among the members with LinkedIn |
| Team.FirstAfterUpdate | team_manager.py:118-120 | changing a record in a way that keeps its test keeps the first match |
| Team.TeamManager.GetMembersWithLinkedin | team_manager.py:138-146 | exactly the members with a truthy URL, in list order |
| Team.TeamManager.GetMembersWithoutLinkedin | team_manager.py:128-136 | exactly the members without a truthy URL, in list order |
| Team.LinkedinPartition | team_manager.py:128-146 | every member is in exactly one of the two lists, so their sizes add up to the team's |
| Team.CompletionRate | team_manager.py:166 | "0%" exactly for an empty team; otherwise the rate in tenths of a percent, rounded to the nearest tenth, at most 100.0 |
| Team.CompleteShowsFull | team_manager.py:166 | a team whose members all have a URL shows "100.0%" |
| Team.NearlyCompleteShowsFull | team_manager.py:166 | so does a team where 9999 of 10000 members have one, because of the rounding |
| Team.TeamManager.GenerateTeamReport | team_manager.py:148-170 | the total is the team size, with and without LinkedIn add up to it, active members are at most it, and the rate is "0%" exactly for an empty team |
| Team.TeamManager.SearchMembers | team_manager.py:172-201 | the records matching the lower-cased query in the field, in list order; a single-field search raises at the first record whose value there is not a string |
| Team.SearchStep | team_manager.py:186-199 | one more record of the loop appends it exactly when it matches |
| Team.AllIsWidest | team_manager.py:187-199 | whatever a single-field search finds, the "all" search finds too |
| Team.AllSpansFields | team_manager.py:189 | the "all" search can match across a field boundary: "e d" is found in the name "lee" followed by the role "dev" |
| Team.FieldsMissSpan | team_manager.py:192-194 | although neither the name nor the role holds "e d" |
| Team.NullNameSearch | team_manager.py:189-192 | a `null` name reads "None" in the "all" text, so "none" finds the member, while a search by name raises |
| Team.UnknownFieldMatchesNothing | team_manager.py:186-201 | a field other than the five searches nothing and raises nothing |
| Reporting.Percentage | src/reporting.py:207-208 | `n / d * 100`, 0 when the denominator is 0 or the numerator is 0, within [0, 100] for a part of the whole, and 100 for the whole |
| Reporting.ShownPercent | src/reporting.py:214-215 | the overview's `:.1f` percentage as tenths: 0 for an empty whole, at most 1000 for a part, and the nearest tenth otherwise |
| Reporting.RateValue | src/reporting.py:231 | `float(rate.rstrip('%'))` of a per-job rate: "0%" reads as 0 and a shown rate as its one-decimal value |
| Reporting.RoundedRatesTie | src/reporting.py:231-239 | 1 of 3 and 333 of 1000 both read back as 33.3, so the candidate count decides between such jobs |
| Reporting.Qualifying | src/reporting.py:228-236 | one entry per job with candidates, in pipeline order, holding its title, candidates and read-back rate |
| Reporting.CollectJobs | src/reporting.py:228-236 | the job loop builds exactly those entries |
| Reporting.SortJobs | src/reporting.py:239 | the descending sort on (rate, candidates) keeps the number of jobs |
| Reporting.SortJobsSorted | src/reporting.py:239 | the result is non-increasing on (rate, candidates) |
| Reporting.SortJobsPerm | src/reporting.py:239 | the result is a permutation of the jobs |
| Reporting.SortJobsStable | src/reporting.py:239 | jobs with equal keys keep their pipeline order, as Python's stable sort does under `reverse=True` |
| Reporting.TopJobs | src/reporting.py:238-240 | at most 3 jobs, the first `min(3, n)` of the sorted qualifying jobs, themselves sorted |
| Reporting.TopJobsFromPipeline | src/reporting.py:229-240 | every top job comes from a pipeline job with candidates |
| Reporting.TopJobsAreBest | src/reporting.py:238-240 | no qualifying job left out ranks above one kept |
| Reporting.Recommendations | src/reporting.py:243-251 | the personalisation advice exactly when the response rate is below 20, the volume advice exactly when the contact rate is below 50, the sourcing advice exactly when nothing was sourced today; at most 3, no repeats |
| Reporting.ShadowedRate | src/reporting.py:207-231 | after the job loop `response_rate` holds the last qualifying job's rate, or the overall rate when no job has candidates |
| Reporting.RecommendationsAsWritten | src/reporting.py:243-251 | as written: the personalisation advice exactly when the shadowed rate is below 20; the other two as in `Recommendations` |
| Reporting.ShadowedRateMisleads | src/reporting.py:231-244 | when the last qualifying job answered below 20% and the overview shows at least 20%, the code advises personalisation and the overview's rate would not |
| Reporting.ShadowedRateExample | src/reporting.py:231-244 | a pipeline whose overview shows 50% still gets the personalisation advice |
| Reporting.GenerateExecutiveSummary | src/reporting.py:197-253 | the overview's counts and shown rates, today's four counts, the top jobs, and the recommendations on the overall rates (the corrected test; see Findings) |
| JsonCodec.Encode | src/database.py:123-143 | `json.dumps` of a list of strings (RFC 8259 with Python's default `ensure_ascii`): printable ASCII, bracketed |
| JsonCodec.EscapeChar | src/database.py:123-143 | one character as `json.dumps` writes it inside a string: printable ASCII, never a bare quote |
| JsonCodec.ParseEscapedChar | src/database.py:302 | `json.loads` reads every escape `json.dumps` writes (short, `\uXXXX`, and surrogate pairs above U+FFFF) back to the character |
| JsonCodec.EncodeDecode | src/database.py:123 | decoding what `json.dumps` wrote gives back the same list (see also line 302) |
| HrStore.DecodeList | src/database.py:222 | a list column decodes to the decoded JSON list (see also line 302) |
| HrStore.JobsWithStatus | src/database.py:291-305 | the jobs with the status, at most all of them |
| HrStore.JobsWithStatusRows | src/database.py:296 | every listed job is the row its id names and has the requested status |
| HrStore.JobIdsInRange | src/database.py:296 | the listed ids are ids of rows |
| HrStore.JobsNewestFirst | src/database.py:296 | the list is ordered newest first (`ORDER BY posted_date DESC`, ids growing with posting order) |
| HrStore.JobListed | src/database.py:296 | every job with the status is listed |
| HrStore.AddJobRoundTrip | src/database.py:114-128 | the skills of a job added as active come back unchanged from `get_jobs`, at the head of the active list (see also lines 291-305) |
| HrStore.EmailIndex | src/database.py:151-155 | the first row holding the email, and none exactly when no row holds it |
| HrStore.RowOf | src/database.py:136-146 | the stored row keeps the email, job and score, is sourced today, never contacted, and its skills column decodes to the skills |
| HrStore.CandidatesOfJobRows | src/database.py:207-209 | every candidate listed for a job is the row its id names and belongs to the job |
| HrStore.CandidateListed | src/database.py:207-209 | every candidate of the job is listed |
| HrStore.ByJob | src/database.py:207-211 | the job's candidates, non-increasing by match score, a permutation of the `WHERE job_id = ?` rows |
| HrStore.Limited | src/database.py:213-214 | the `LIMIT` is applied only for a truthy limit; a negative one keeps every row |
| HrStore.CandidatesByJobProperties | src/database.py:202-225 | the result belongs to the job, is non-increasing by score, has at most `limit` rows when it is positive, and all the job's candidates otherwise |
| HrStore.DailyMetrics | src/database.py:227-267 | shortlisted is at most sourced (the same query plus a score filter), sourced and responses are at most the candidates, contacted at most the log rows |
| HrStore.LastLogOf | src/database.py:192-197 | the latest log row of a candidate, and none exactly when it has none |
| HrStore.Contact | src/database.py:170-175 | logging an outreach marks the candidate with that id contacted today, whatever its status was, and changes no other candidate |
| HrStore.ContactAll | src/database.py:170-175 | logging a run of rows keeps the number of candidates |
| HrStore.ContactAllSnoc | src/database.py:170-175 | logging one more row applies its update after the earlier ones |
| HrStore.ContactAllAt | src/database.py:170-175 | after rows dated today, a candidate some row names is contacted today and every other candidate is unchanged |
| HrStore.HRDatabase.constructor | src/database.py:37-112 | a fresh database: every table empty |
| HrStore.HRDatabase.AddJob | src/database.py:114-128 | one active job row appended with its skills as JSON text; the new id is its position; nothing else changes |
| HrStore.HRDatabase.GetJobs | src/database.py:291-305 | exactly `JobsWithStatus` of the job table |
| HrStore.HRDatabase.AddCandidate | src/database.py:130-157 | a stored email returns that row's id and changes nothing; otherwise one row stamped today is appended and its id returned |
| HrStore.HRDatabase.LogOutreach | src/database.py:159-180 | one log row appended, its id returned, and the candidate marked contacted today |
| HrStore.HRDatabase.UpdateCandidateResponse | src/database.py:182-200 | the candidate's status is set; with a non-empty response its latest log row is marked responded with that text; an unknown id changes nothing |
| HrStore.HRDatabase.FindLastLog | src/database.py:192-197 | the search from the end finds `LastLogOf` |
| HrStore.HRDatabase.GetCandidatesByJob | src/database.py:202-225 | the job's candidates by descending score, cut to `limit` when it is truthy |
| HrStore.HRDatabase.RowsOfJob | src/database.py:207-209 | the scan yields the job's candidates in id order |
| HrStore.HRDatabase.GetDailyMetrics | src/database.py:227-267 | the four counts of the given date, or of today when it is empty |
| HrStore.HRDatabase.SaveDailyReport | src/database.py:269-289 | succeeds exactly when the counts are at the top level, replacing that date's row; without them a `KeyError` and nothing stored; the other tables never change |
| HrAgent.LowerSet | src/hr_agent.py:173-174 | the set of lower-cased skills: empty exactly for no skills, and holding each skill's lower-case form |
| HrAgent.SkillTerm | src/hr_agent.py:176-178 | half the share of required skills the candidate has, in [0, 0.5]: 0 without required skills or without overlap, 0.5 exactly when every required skill is covered |
| HrAgent.ExperienceTerm | src/hr_agent.py:180-193 | 0.3 exactly when the years fit the lower-cased level (entry ≤ 2, mid 2..7, senior ≥ 5, executive ≥ 10), 0.1 otherwise |
| HrAgent.LocationTerm | src/hr_agent.py:195-204 | 0.2 exactly when either side mentions "remote" or one lower-cased location contains the other, 0.05 otherwise; an empty candidate location always earns 0.2 |
| HrAgent.FallbackScore | src/hr_agent.py:168-206 | the capped sum lies in [0.15, 1.0], and is 1.0 exactly when the three terms reach it |
| HrAgent.FallbackScoreFull | src/hr_agent.py:168-206 | every required skill, a fitting experience and a compatible location score the full 1.0 |
| HrAgent.CalculateMatchScoreFallback | src/hr_agent.py:168-206 | the accumulating computation equals `FallbackScore` and lies in [0.15, 1.0] |
| HrAgent.MinExperience | src/hr_agent.py:399-407 | one of 0, 2, 5, 10, and positive exactly for mid, senior or executive in any case |
| HrAgent.MinExperienceFits | src/hr_agent.py:184-191 | for senior and executive the fit is exactly "at or above the floor"; for mid it is the floor up to 7 years (see also lines 399-407) |
| HrAgent.FallbackJdAnalysis | src/hr_agent.py:62-78 | the required skills are exactly the keywords occurring in the lower-cased description, in keyword order, with the fixed defaults elsewhere |
| HrAgent.JavaInJavaScript | src/hr_agent.py:65-66 | plain substring matching: a description mentioning JavaScript also yields "java" |
| HrAgent.StripFence | src/hr_agent.py:51-55 | an unfenced reply is only stripped; a fenced one never grows |
| HrAgent.FencedJsonBody | src/hr_agent.py:52-53 | a reply fenced with "```json" gives back exactly its body |
| HrAgent.FencedBody | src/hr_agent.py:54-55 | a bare fence gives back its body too, unless the body starts with "json" |
| HrAgent.AnalyzeJobDescription | src/hr_agent.py:26-60 | the decoded fence-stripped reply, or the fallback analysis when there is no reply or it does not decode |
| HrAgent.Squash | src/hr_agent.py:283-284 | the skill with every space, "-" and "_" removed |
| HrAgent.SkillMatches | src/hr_agent.py:279-295 | the number of required skills with a hit, at most their number, and positive exactly when some pair of skills hits |
| HrAgent.AnyHit | src/hr_agent.py:281-295 | the inner loop finds a hit for one required skill exactly when one exists |
| HrAgent.CountSkillMatches | src/hr_agent.py:279-295 | the middle loop counts exactly the required skills with a hit |
| HrAgent.Admit | src/hr_agent.py:297-304 | one pool member passes exactly the experience floor, the location test and at least one skill hit |
| HrAgent.SearchCandidates | src/hr_agent.py:270-306 | in pool order, exactly the pool members that pass all three tests |
| HrAgent.CampaignTargets | src/hr_agent.py:419-425 | the candidates scoring at least the minimum, cut to `max_outreach`, then narrowed to those not contacted: at most `max_outreach` of them |
| HrAgent.CutBeforeStatus | src/hr_agent.py:420-425 | the cut comes before the status test, so with one place and a contacted candidate ranked first no campaign is written |
| HrAgent.FindJob | src/hr_agent.py:416 | the first job with that id, and none exactly when no job has it |
| HrAgent.CampaignAsWritten | src/hr_agent.py:434-441 | the campaign entry as the code writes it: the candidate's id and no "job_id" |
| HrAgent.CampaignFor | src/hr_agent.py:434-441 | the corrected entry: the candidate's id, its email text, and the job it was written for |
| HrAgent.CampaignsForAt | src/hr_agent.py:424-441 | the k-th campaign is for the k-th target and names the k-th new log row |
| HrAgent.GeneratedLogAt | src/hr_agent.py:430-432 | the k-th "generated" row logs the k-th target under the job, with its email text |
| HrAgent.GeneratedLogDated | src/hr_agent.py:430-432 | every generated row is dated today and names its target |
| HrAgent.SentRow | src/hr_agent.py:459-465 | a sent row names the campaign's candidate, has status "sent", is dated today, and uses the campaign's job when it has one |
| HrAgent.SentUnderJobOne | src/hr_agent.py:434-461 | as written, a campaign for any job other than 1 is logged as sent under job 1 |
| HrAgent.SentUnderCampaignJob | src/hr_agent.py:430-465 | with the job carried along, the sent row matches the generated row except for its status |
| HrAgent.SentLog | src/hr_agent.py:453-471 | one sent row per campaign that does not fail |
| HrAgent.SentLogDated | src/hr_agent.py:459-465 | every sent row is dated today |
| HrAgent.JobMetricsOf | src/hr_agent.py:509-515 | one job's entry of the daily report: its id and candidate count, the mean score (0 without candidates, within [0, 1] for scores in [0, 1]) and the first candidate's name ("None" without) |
| HrAgent.Breakdown | src/hr_agent.py:505-516 | one entry per active job |
| HrAgent.JobDetailOf | src/hr_agent.py:537-552 | one job's pipeline entry: responded ≤ contacted ≤ candidates, and the rate is "0%" exactly when nobody was contacted, otherwise rounded to the nearest tenth of a percent |
| HrAgent.Details | src/hr_agent.py:536-552 | one entry per active job |
| HrAgent.AddDetail | src/hr_agent.py:541-543 | adding one job's entry adds its counts to the running totals |
| HrAgent.PipelineTotals | src/hr_agent.py:528-554 | the totals are sums over the jobs, so responded ≤ contacted ≤ candidates holds for them too |
| HrAgent.HRRecruitmentAgent.constructor | src/hr_agent.py:311-319 | the agent works on the given database |
| HrAgent.HRRecruitmentAgent.CampaignStep | src/hr_agent.py:424-441 | one candidate of the campaign loop for a found job: a candidate not contacted yet gets an email, logged as "generated", and joins the campaigns; any other candidate changes nothing |
| HrAgent.HRRecruitmentAgent.CampaignsWithoutJob | src/hr_agent.py:424-428 | with no active job of that id, the loop fails with the `TypeError` of `job['title']` (line 92) at the first target not contacted yet, and yields no campaigns when there is none |
| HrAgent.HRRecruitmentAgent.GenerateOutreachCampaigns | src/hr_agent.py:409-444 | with the job found: one campaign per target not contacted yet, in order, each logged as "generated" under the job, the targets marked contacted today; without it: the `TypeError` of building the e-mail prompt once a target needs an e-mail, with nothing logged or changed, and an empty result otherwise; at most `max_outreach` campaigns; jobs and reports unchanged (campaigns carry their job: see Findings) |
| HrAgent.HRRecruitmentAgent.SendOutreachEmails | src/hr_agent.py:446-480 | sent + failed = total = number of campaigns, failed counts the failing ones, the sent rows are appended and their candidates marked contacted; jobs and reports unchanged |
| HrAgent.HRRecruitmentAgent.SendStep | src/hr_agent.py:453-471 | one campaign of the send loop: logged as sent unless the store fails on it |
| HrAgent.HRRecruitmentAgent.BuildDailyReport | src/hr_agent.py:484-516 | the report of the day: its date, the day's metrics, the breakdown over the active jobs, and the contacted count as total sent |
| HrAgent.HRRecruitmentAgent.GenerateDailyReportAsWritten | src/hr_agent.py:482-522 | as written: the save always fails with `KeyError: 'candidates_sourced'`, no report is stored, and jobs, candidates and the outreach log are unchanged |
| HrAgent.HRRecruitmentAgent.GenerateDailyReport | src/hr_agent.py:482-522 | corrected: the report of the day (today when no date is given), with the breakdown over the active jobs and the contacted count as total sent, is returned and stored under its date; jobs, candidates and the outreach log are unchanged |
| HrAgent.HRRecruitmentAgent.GetPipelineStatus | src/hr_agent.py:524-554 | one entry per active job; the job count and the three totals are the sums over the entries |
| CandidateDb.NameParts | database_manager.py:187-189 | `split(' ', 1)`: the first part has no space; with a space the two parts rejoin to the name, without one the second part is "" |
| CandidateDb.NewRecord | database_manager.py:185-223 | the inserted row: the stripped full name split at its first space, and the URL exactly as supplied |
| CandidateDb.WfInsert | database_manager.py:204-225 | inserting a row with a new URL under the next id keeps the table's invariant, adds the URL and grows the table by one |
| CandidateDb.CsvRecord | database_manager.py:117-136 | the record a CSV row becomes, keeping its stripped URL; none exactly when a cell is missing (its `.strip()` raises and the whole sync is abandoned) |
| CandidateDb.SyncRow | database_manager.py:116-160 | a row is skipped exactly when its URL is blank or already seen; an inserted row has a new, non-empty URL |
| CandidateDb.SyncPlanFresh | database_manager.py:113-155 | the planned records have non-empty URLs, none seen before and no two alike: a URL repeated in the file is inserted once |
| CandidateDb.SyncPlanCovered | database_manager.py:113-121 | once every URL of the file's rows is known, the file plans nothing |
| CandidateDb.Inserted | database_manager.py:139-156 | the table after inserting the records under consecutive fresh ids, other rows unchanged |
| CandidateDb.InsertedWf | database_manager.py:139-156 | inserting records with fresh, distinct URLs keeps the invariant |
| CandidateDb.InsertedCovers | database_manager.py:155 | after the insertion the old URLs and the inserted ones are all taken |
| CandidateDb.SyncTwice | database_manager.py:97-166 | `sync_csv_to_db` is idempotent: syncing the same file again plans no insertion |
| CandidateDb.PlanSync | database_manager.py:116-160 | the sync loop computes the planned records, or none when a row raises |
| CandidateDb.SyncPlanStep | database_manager.py:116-160 | one row of the loop, as the plan sees it |
| CandidateDb.Updated | database_manager.py:366-383 | the updated record keeps its URL and connection date and gets the update time |
| CandidateDb.UpdatedColumn | database_manager.py:371-374 | each whitelisted column takes the value given for it, and keeps its old value otherwise |
| CandidateDb.MatchingUpTo | database_manager.py:315 | exactly the rows with ids up to n that match the term in name, company or position |
| CandidateDb.LikeContains | database_manager.py:309-315 | `LIKE '%term%'` for a term without wildcards holds exactly when the field contains the term, ignoring ASCII case |
| CandidateDb.LikePrefix | database_manager.py:315 | `t%` matches exactly the strings starting with `t`, ignoring ASCII case |
| CandidateDb.LikeAnySuffix | database_manager.py:315 | `%q` matches exactly when `q` matches some suffix |
| CandidateDb.CandidateDatabase.constructor | database_manager.py:22-95 | a fresh, empty table whose next id is 1 |
| CandidateDb.CandidateDatabase.FindByUrl | database_manager.py:195-199 | the id of a row holding the URL, and none exactly when no row holds it |
| CandidateDb.CandidateDatabase.AddCandidate | database_manager.py:168-236 | none and no change for a blank name or URL; the existing id and no change for a URL already stored (compared unstripped); otherwise the id of one new row and the table one larger |
| CandidateDb.CandidateDatabase.SyncCsvToDb | database_manager.py:97-166 | nothing changes without a file or when a row raises; otherwise exactly the planned records are inserted |
| CandidateDb.CandidateDatabase.UpdateCandidate | database_manager.py:356-399 | true exactly when a whitelisted column is given and the id exists, and then only that row changes, as `Updated` says; otherwise nothing changes |
| CandidateDb.CandidateDatabase.DeleteCandidate | database_manager.py:401-418 | true exactly when the row existed, and afterwards it is gone and nothing else changed |
| CandidateDb.CandidateDatabase.GetCandidatesCount | database_manager.py:420-429 | the number of rows |
| CandidateDb.CandidateDatabase.CollectMatches | database_manager.py:315 | the scan finds exactly the matching rows, in id order |
| CandidateDb.CandidateDatabase.SearchCandidates | database_manager.py:303-330 | the matching rows sorted by full name |
| CandidateDb.SearchResultSpec | database_manager.py:315-316 | the search returns every matching row and nothing else, sorted by full name |
| CandidateDb.UpdateKeepsWf | database_manager.py:386-387 | changing a row other than its URL keeps the invariant |
| Shortlisting.CandidateOf | candidate_shortlisting.py:76-103 | a candidate exactly when there are at least seven fields and the stripped first name and URL are non-empty; its fields are the stripped cells and the full name is "first last" stripped |
| Shortlisting.CandidateOfFields | candidate_shortlisting.py:80-103 | seven stripped, non-empty fields are taken over as they are |
| Shortlisting.LineFieldsPlain | candidate_shortlisting.py:73-74 | a stripped line without a vertical bar is split at its commas |
| Shortlisting.LineFieldsPrefixed | candidate_shortlisting.py:66-70 | of a line prefix, bar, body only the body after the first bar is split |
| Shortlisting.ParseJoinedLine | candidate_shortlisting.py:64-105 | seven stripped, non-empty fields written as one comma-separated line are read back, with or without a line-number prefix |
| Shortlisting.LineCandidates | candidate_shortlisting.py:64-109 | one line contributes its candidate, or nothing when it is skipped |
| Shortlisting.ParsedHaveNameAndUrl | candidate_shortlisting.py:88-90 | every candidate read has a first name and a profile URL |
| Shortlisting.DataLines | candidate_shortlisting.py:64 | the lines after the header line |
| Shortlisting.CandidateProcessor.constructor | candidate_shortlisting.py:51-53 | no candidates yet |
| Shortlisting.CandidateProcessor.LoadCandidates | candidate_shortlisting.py:55-120 | the candidates of the lines after the header, in order, stored and returned |
| Shortlisting.VocabHits | candidate_shortlisting.py:183-199 | the vocabulary entries occurring in the text and not excluded, in vocabulary order |
| Shortlisting.KeyAt | candidate_shortlisting.py:180-188 | the first of the alternatives spelled at a position, or none when none is |
| Shortlisting.SectionEnd | candidate_shortlisting.py:180-188 | the lazy `(.*?)` stops at the first position where a stop word begins or the text ends |
| Shortlisting.SectionSpan | candidate_shortlisting.py:180-190 | a found section is a slice of the text in which no stop word begins |
| Shortlisting.SectionProperties | candidate_shortlisting.py:180-190 | a section never contains one of its non-empty stop words, and everything it contains the text contains |
| Shortlisting.SectionHits | candidate_shortlisting.py:181-193 | no section contributes nothing; a section contributes its vocabulary hits |
| Shortlisting.ExtractSkillsProperties | candidate_shortlisting.py:161-201 | both lists are vocabulary entries in vocabulary order found in the lower-cased description, and preferred never repeats a required skill |
| Shortlisting.ExtractSkillsWithoutSections | candidate_shortlisting.py:195-199 | without a required or preferred section every vocabulary hit of the whole description is required |
| Shortlisting.CollectFound | candidate_shortlisting.py:220-226 | the loop keeps exactly the skills found in the profile, in their order (see also lines 405-409) |
| Shortlisting.CountFound | candidate_shortlisting.py:369-372 | the loop counts exactly the skills found in the profile |
| Shortlisting.SkillPoints | candidate_shortlisting.py:220-226 | between 0 and the number of skills |
| Shortlisting.Gain | candidate_shortlisting.py:221-225 | one skill earns 1.0 when found and required, 0.5 when found and only preferred, within [0, 1] |
| Shortlisting.TallySkills | candidate_shortlisting.py:218-226 | the loop computes the points and the found skills together |
| Shortlisting.SkillPointsRequired | candidate_shortlisting.py:222-223 | skills that are all required earn one point per found skill |
| Shortlisting.SkillPointsPreferred | candidate_shortlisting.py:224-225 | skills none of which is required earn half a point per found skill |
| Shortlisting.SkillScoreDisjoint | candidate_shortlisting.py:218-230 | with disjoint lists the points are the found required skills plus half the found preferred ones, so the skill score is at most 1 |
| Shortlisting.MatchScore | candidate_shortlisting.py:228-237 | within [0, 1]: either the cap 1.0 or the skill score plus 0.2 for a shared title word |
| Shortlisting.MatchScoreAllFound | candidate_shortlisting.py:218-237 | a profile showing every skill of a job with disjoint lists earns the full skill score and scores 1.0 |
| Shortlisting.MatchOf | candidate_shortlisting.py:239-245 | the result keeps the candidate and job, its score is in [0, 1], it is a match exactly when the score is at least 0.3, and its matched skills are a subsequence of the job's skills |
| Shortlisting.ScoreFromPoints | candidate_shortlisting.py:228-237 | the score from the tallied points: normalised (0 without skills), plus the title bonus, capped at 1 |
| Shortlisting.MatchCandidateToJob | candidate_shortlisting.py:209-245 | the method computes `MatchOf` |
| Shortlisting.MatchesSound | candidate_shortlisting.py:264-269 | every listed result is a match and is the result of one of the candidates |
| Shortlisting.MatchesComplete | candidate_shortlisting.py:264-269 | every candidate that matches is listed |
| Shortlisting.GetMatchesForJob | candidate_shortlisting.py:261-274 | the matches sorted by descending score, cut to `top_n` |
| Shortlisting.GetMatchesProperties | candidate_shortlisting.py:261-274 | only matches, best first, at most `top_n`, a permutation before the cut, and equal scores keep candidate order |
| Shortlisting.TitleSimilarity | candidate_shortlisting.py:383-400 | the Jaccard index in [0, 1], 0 when no job-title words remain |
| Shortlisting.TitleSimilarityOne | candidate_shortlisting.py:393-400 | the similarity is 1 exactly when the two word sets are equal and not empty |
| Shortlisting.TitleSimilarityImpliesShared | candidate_shortlisting.py:247-259 | a positive similarity implies the matcher's shared-word test, whose stop list is smaller (see also lines 383-400) |
| Shortlisting.SkillFraction | candidate_shortlisting.py:368-375 | the fraction of job skills found, in [0, 1], and 1 exactly when every skill is found |
| Shortlisting.ShortlistScore | candidate_shortlisting.py:360-381 | 0.7 times the fraction found plus 0.3 times the title similarity, capped, within [0, 1] |
| Shortlisting.ShortlistScoreUncapped | candidate_shortlisting.py:375-381 | the cap never binds, because both terms are bounded by their weights |
| Shortlisting.SubstringSkillQuirk | candidate_shortlisting.py:371-408 | "Go" is found in "recruiter google": matching is by substring, not by whole word |
| Shortlisting.StringItems | candidate_shortlisting.py:308-309 | the strings of a list, or none exactly when an item is not a string |
| Shortlisting.FieldSkills | candidate_shortlisting.py:307-312 | one job field contributes its raw items as strings, a falsy value nothing; none exactly when one of those items is not a string |
| Shortlisting.ExtractSkillsFromJob | candidate_shortlisting.py:300-330 | the collected skills without duplicates; none whenever the source raises (a list or dict item refused by `set`, or a non-string description with no skills collected), and otherwise only when a collected item is not a string |
| Shortlisting.CollectFields | candidate_shortlisting.py:306-312 | the skills of the fields in field order, item for item the raw list the source builds, or none exactly when that list holds a non-string |
| Shortlisting.AllStrings | candidate_shortlisting.py:306-330 | when skills are extracted, the source's list held only strings and its extraction did not raise |
| Shortlisting.ExtractSkillsFromJobProperties | candidate_shortlisting.py:300-330 | collected skills come back once each; without any, the vocabulary hits of the lower-cased description are used |
| Shortlisting.JobTitle | candidate_shortlisting.py:337 | "Unknown Job" when the job has no title |
| Shortlisting.ShortlistOf | candidate_shortlisting.py:343-353 | one candidate's entry: its score in [0, 1], the job title, and exactly the job skills found in its profile, in job-skill order |
| Shortlisting.Scored | candidate_shortlisting.py:342-354 | exactly the entries of the candidates reaching the minimum, in candidate order |
| Shortlisting.FindMatches | candidate_shortlisting.py:332-358 | fails exactly where the source raises: in the skill extraction, or, with at least one candidate to score, on a non-string skill (`skill.lower()`, line 371) or a non-string title; without candidates a non-string skill gives an empty result |
| Shortlisting.FindMatchesProperties | candidate_shortlisting.py:332-358 | only candidates reaching the minimum, best first, at most `max_candidates`, each with the found job skills in job-skill order; when the skills hold a non-string the result is empty and there were no candidates |
| Shortlisting.CandidateShortlister.constructor | candidate_shortlisting.py:279-293 | no candidates loaded |
| Shortlisting.CandidateShortlister.CalculateMatchScore | candidate_shortlisting.py:360-381 | the accumulating computation equals `ShortlistScore` |
| Shortlisting.CandidateShortlister.GetMatchedSkills | candidate_shortlisting.py:402-411 | the job skills found in the profile, in job-skill order |
| Shortlisting.CandidateShortlister.ScoreCandidate | candidate_shortlisting.py:343-354 | a candidate's entry when it reaches the minimum, nothing otherwise |
| Shortlisting.CandidateShortlister.ScoreCandidates | candidate_shortlisting.py:342-354 | the scoring loop computes `Scored` |
| Shortlisting.CandidateShortlister.FindMatchesForJob | candidate_shortlisting.py:332-358 | loads the candidates from the file's lines first when none are loaded, then returns `FindMatches` over them |
| LinkedIn.WithScheme | linkedin_scraper.py:321-323 | a URL starting with neither scheme gets "https://" in front; one with a scheme is unchanged |
| LinkedIn.SegmentStart | linkedin_scraper.py:326 | where `urlparse` takes the last path segment to start: after the last "/", or 0 |
| LinkedIn.WithoutParams | linkedin_scraper.py:326 | `urlparse` cuts the path at the first ";" of its last segment, and keeps a path without one |
| LinkedIn.NetlocEnd | linkedin_scraper.py:326 | the network location runs from after "//" to the first "/", "?" or "#" |
| LinkedIn.PathOf | linkedin_scraper.py:326 | the path runs up to the query or fragment and holds no delimiter of either |
| LinkedIn.ParseUrl | linkedin_scraper.py:326 | the network location and path `urlparse` reports, or none where it raises `ValueError` (a network location with one square bracket and not the other) |
| LinkedIn.LStripSlash | linkedin_scraper.py:333 | `lstrip('/')`: a suffix of the input, not starting with "/", with only slashes cut |
| LinkedIn.RStripSlash | linkedin_scraper.py:333 | `rstrip('/')`: a prefix of the input, not ending with "/", with only slashes cut |
| LinkedIn.StripSlashes | linkedin_scraper.py:333 | `strip('/')`: the result neither starts nor ends with "/" |
| LinkedIn.Normalize | linkedin_scraper.py:316-341 | "" stays ""; an unparsable URL raises; a host not mentioning "linkedin.com" gives the URL with its scheme; a LinkedIn URL gives that or a canonical profile URL |
| LinkedIn.Rewrite | linkedin_scraper.py:333-341 | a LinkedIn URL is either returned as it is or rewritten to a canonical profile URL |
| LinkedIn.NormalizeAddsScheme | linkedin_scraper.py:321-323 | a URL without a scheme is normalised as if "https://" had been typed |
| LinkedIn.NormalizeIdempotent | linkedin_scraper.py:316-341 | normalising twice is normalising once |
| LinkedIn.CanonicalFixed | linkedin_scraper.py:335-339 | "https://www.linkedin.com/in/" + handle is a fixed point, whether or not the handle is empty |
| LinkedIn.NormalizeBareIn | linkedin_scraper.py:333-341 | the profile URL with an empty handle is left as it is |
| LinkedIn.NormalizeProfileUrl | linkedin_scraper.py:326-339 | every URL whose host mentions "linkedin.com" (including look-alikes such as "notlinkedin.com") and whose path begins "/in/" + handle becomes the canonical URL of the handle with characters outside `[A-Za-z0-9_-]` removed; further segments and the query are dropped |
| LinkedIn.NormalizeParsed | linkedin_scraper.py:329-341 | a URL with a scheme that parses to a LinkedIn host is rewritten by its path |
| LinkedIn.RewriteProfile | linkedin_scraper.py:335-339 | the path "/in/" + handle + rest rewrites to the canonical URL of the handle |
| LinkedIn.IsValid | linkedin_scraper.py:300-314 | false for "", raising where normalising raises, otherwise whether the normalised URL matches the anchored profile pattern ignoring case |
| LinkedIn.CanonicalValid | linkedin_scraper.py:309-314 | a canonical URL with a non-empty handle is a valid profile URL |
| LinkedIn.ValidStable | linkedin_scraper.py:300-341 | a valid URL stays valid once normalised |
| LinkedIn.ValidProfileUrl | linkedin_scraper.py:306-329 | any host mentioning "linkedin.com" gives a valid profile URL, so a look-alike host passes the check |
| LinkedIn.LookalikeHost | linkedin_scraper.py:329 | "notlinkedin.com" is a host that mentions "linkedin.com" |
| LinkedIn.DropNumberSuffix | linkedin_scraper.py:283 | `re.sub(r'-\d+$', '', s)` never lengthens the text |
| LinkedIn.DropNumber | linkedin_scraper.py:283 | a final "-" with digits goes, also when a single newline follows them (where `$` also matches) |
| LinkedIn.DropNumberLetter | linkedin_scraper.py:283 | a handle ending in a letter keeps everything |
| LinkedIn.CapitalisedWords | linkedin_scraper.py:289 | the alphabetic parts capitalised: no more than the parts, each a capitalised word (see also line 459) |
| LinkedIn.NameWords | linkedin_scraper.py:283-292 | the name words of a handle: none, or two or three capitalised alphabetic words |
| LinkedIn.GuessedName | linkedin_scraper.py:288-292 | "" or two to three capitalised words joined by spaces (see also lines 458-461) |
| LinkedIn.HyphenatedName | linkedin_scraper.py:283-292 | a handle of alphabetic words joined by "-" gives the first three of them, capitalised: "john-doe-engineer" gives "John Doe Engineer" (see also lines 458-461) |
| LinkedIn.WordsOfHyphenated | linkedin_scraper.py:288 | replacing the hyphens of alphabetic words joined by "-" with spaces and splitting on whitespace gives the words back (see also line 458) |
| LinkedIn.SplitWsJoin | linkedin_scraper.py:288 | splitting words joined by single spaces gives the words back |
| LinkedIn.UsernameAfterIn | linkedin_scraper.py:275-278 | the part after the first "in" that has a part after it, and none exactly when no such "in" exists (see also lines 450-453) |
| LinkedIn.FindUsername | linkedin_scraper.py:275-278 | the loop with its `break` finds `UsernameAfterIn` |
| LinkedIn.NameFromUrl | linkedin_scraper.py:268-292 | the name guessed from the URL's handle is "" or two to three capitalised words |
| LinkedIn.Profile.constructor | linkedin_scraper.py:37-57 | a profile holding only the URL (see also lines 87-88) |
| LinkedIn.Profile.Store | linkedin_scraper.py:129-266 | a scraping attempt's fields are written into the profile |
| LinkedIn.WithPatternName | linkedin_scraper.py:280-294 | only the full name may change: to the name guessed from the URL when there is one |
| LinkedIn.ExtractFromUrlPattern | linkedin_scraper.py:268-298 | the profile's fields become `WithPatternName` of the old ones |
| LinkedIn.ExtractProfileInfo | linkedin_scraper.py:77-127 | raising exactly where normalising raises; an invalid URL gives a profile holding only the normalised URL; a valid one gives the scraped profile with the URL pattern as fallback |
| LinkedIn.ScrapedName | linkedin_scraper.py:94-127 | a scraped name is kept; otherwise the name is the URL's guess or empty |
| LinkedIn.ExtractBasicInfoFromUrl | linkedin_scraper.py:439-474 | the normalised URL, "url_pattern", and a name that is "" or two to three capitalised words; the input marked "failed" when the URL cannot be parsed |
| LinkedIn.BasicNameOfProfileUrl | linkedin_scraper.py:439-467 | ".../in/john-doe-engineer" gives the name "John Doe Engineer" |
| LinkedIn.NameOfCanonical | linkedin_scraper.py:449-461 | the name read from a canonical URL is the one guessed from its handle |
| LinkedIn.SplitCanonical | linkedin_scraper.py:449 | a canonical URL splits at "/" into "https:", "", the host, "in" and the handle |
| LinkedIn.UsernameOfCanonical | linkedin_scraper.py:450-453 | the pieces of a canonical URL give its handle as the username |
| LinkedIn.SkillsFound | linkedin_scraper.py:358-365 | the vocabulary terms the test finds in the lower-cased text, in vocabulary order |
| LinkedIn.TopSkills | linkedin_scraper.py:343-367 | none for empty text; otherwise the first fifteen terms found, in vocabulary order |
| LinkedIn.FindSkills | linkedin_scraper.py:361-365 | the vocabulary loop computes `SkillsFound`, with the test as written or corrected |
| LinkedIn.ExtractSkillsFromTextAsWritten | linkedin_scraper.py:343-367 | as written: `\b` on both sides of the escaped term |
| LinkedIn.ExtractSkillsFromText | linkedin_scraper.py:343-367 | corrected: the term must stand alone, not touching a word character on either side (see Findings) |
| LinkedIn.TermFoundContains | linkedin_scraper.py:362-364 | either test finds a term only where it occurs |
| LinkedIn.EarlySkillFound | linkedin_scraper.py:361-367 | a term among the first fifteen of the vocabulary that passes the test is always reported |
| LinkedIn.StandaloneAgrees | linkedin_scraper.py:364 | for a term that begins and ends with a word character, `\b` on both sides and standing alone agree |
| LinkedIn.SkillsAgree | linkedin_scraper.py:349-365 | the two tests agree on any vocabulary whose terms begin and end with a word character |
| LinkedIn.WordAfterNeeded | linkedin_scraper.py:364 | as written, a term ending in a non-word character matches only where a word character follows it |
| LinkedIn.NotOwnWholeWord | linkedin_scraper.py:364 | as written, such a term is never a whole word of itself |
| LinkedIn.CPlusPlusMissed | linkedin_scraper.py:350-364 | the text "C++" holds the skill "C++" for the corrected test and not for the code as written |
| ResumeParser.Squash | resume_parser.py:258-259 | `re.sub(c + '+', c, s)`: no longer, same first and last character, no run of `c` left and no run of another character created |
| ResumeParser.CleanText | resume_parser.py:255-260 | no run of newlines or of spaces, and stripped |
| ResumeParser.StripSlice | resume_parser.py:260 | stripping keeps the absence of runs |
| ResumeParser.CleanTextIdempotent | resume_parser.py:255-260 | cleaning cleaned text changes nothing |
| ResumeParser.FormatShape | resume_parser.py:272-273 | "(XXX) XXX-XXXX" holds the three groups at their places |
| ResumeParser.ExtractPhone | resume_parser.py:77 | "" exactly when the phone pattern finds nothing; otherwise a formatted number (see also lines 267-274) |
| ResumeParser.PhoneAtFormatted | resume_parser.py:77 | the phone pattern finds a formatted number whole at its first character |
| ResumeParser.ExtractPhoneFormatted | resume_parser.py:77 | extracting the phone from its own formatted text gives it back (see also lines 267-274) |
| ResumeParser.ExtractLinkedIn | resume_parser.py:80 | "" exactly when the pattern finds nothing; otherwise a URL starting "http" that ends with the match, the match itself when it starts "http" (see also lines 276-285) |
| ResumeParser.HttpsPrefix | resume_parser.py:282-283 | "https://" in front starts with "http" and ends with the match |
| ResumeParser.SearchCanonical | resume_parser.py:80 | the pattern finds a canonical profile URL whole |
| ResumeParser.ExtractCanonical | resume_parser.py:276-285 | a canonical profile URL is extracted unchanged, and it is a valid profile URL for the LinkedIn module |
| ResumeParser.CapWordAt | resume_parser.py:84-86 | `[A-Z][a-z]+` at a position: an upper-case letter followed by a maximal run of at least one lower-case letter |
| ResumeParser.ThreeWordsShadowed | resume_parser.py:84-86 | as written, wherever the three-word pattern matches, the two-word pattern matched first and cuts the name after two words (see also lines 299-303) |
| ResumeParser.PatternNameLongest | resume_parser.py:84-86 | with the three-word pattern tried first, the group is the longest any pattern captures |
| ResumeParser.NameIn | resume_parser.py:291-305 | a non-empty name comes from a candidate line: stripped, non-empty, no stop word, and the name starts that line |
| ResumeParser.ExtractName | resume_parser.py:287-305 | corrected: the first five lines searched, three-word pattern first (see Findings) |
| ResumeParser.ExtractNameAsWritten | resume_parser.py:287-305 | as written: the first five lines searched with the patterns in the code's order |
| ResumeParser.CapWordMatch | resume_parser.py:84 | a capitalised word with no lower-case letter after it is what `[A-Z][a-z]+` matches |
| ResumeParser.PatternOrderCut | resume_parser.py:84-86 | three capitalised words before anything but a lower-case letter: the code's order returns two, the corrected order three (see also lines 299-303) |
| ResumeParser.CapWordsEnd | resume_parser.py:84-86 | the two- and three-word patterns end where their words end |
| ResumeParser.NameOfPatternLine | resume_parser.py:293-303 | a candidate line that is not a name as a whole gives the group of the first pattern that matches |
| ResumeParser.ThreeWordNameCut | resume_parser.py:84-86 | on a first line of three capitalised words and a rest, the code as written returns the first two words and the corrected order all three (see also lines 287-305) |
| ResumeParser.JohnBrownSmithCut | resume_parser.py:84-86 | the text "John Brown Smith Jr." gives "John Brown" as written and "John Brown Smith" corrected (see also lines 287-305) |
| ResumeParser.NoStopLetters | resume_parser.py:293 | a line without the letters e, p, k and d in either case mentions no stop word |
| ResumeParser.FirstName | resume_parser.py:291-305 | the line loop with its early returns computes `NameIn` |
| ResumeParser.ExtractExperienceYears | resume_parser.py:90-94 | "" exactly when no experience pattern matches; otherwise digits followed by " years" (see also lines 360-368) |
| ResumeParser.SummaryScan | resume_parser.py:376-393 | at most three lines collected, each over ten characters and neither opening nor closing the section, and only once inside it |
| ResumeParser.ScanStopped | resume_parser.py:385-393 | once the scan has stopped, later lines change nothing |
| ResumeParser.ExperienceSummary | resume_parser.py:395-398 | at most 300 characters; "" exactly when nothing was collected or the join is empty |
| ResumeParser.ExtractExperienceSummary | resume_parser.py:370-398 | the summary of the text's lines |
| ResumeParser.ScanLines | resume_parser.py:376-393 | the loop with its two `break`s collects `SummaryScan`'s lines |
| ResumeParser.KeptLines | resume_parser.py:437-442 | the stripped lines that pass the test, in text order |
| ResumeParser.KeptLinesIn | resume_parser.py:437-442 | a line is kept exactly when, stripped, it passes the test |
| ResumeParser.FirstKept | resume_parser.py:437-444 | at most three lines, the first of the kept ones; all of them when fewer than three |
| ResumeParser.ExtractEducation | resume_parser.py:430-446 | the first three stripped lines mentioning an education keyword with between 6 and 149 characters |
| ResumeParser.FirstEducation | resume_parser.py:437-444 | the loop with its `break` computes `FirstKept` |
| ResumeParser.FirstThree | resume_parser.py:442-443 | three kept lines in a prefix are the first three of the whole |
| ResumeParser.CleanSkill | resume_parser.py:354 | the cleaned skill is stripped |
| ResumeParser.CleanSkillChars | resume_parser.py:354 | a cleaned skill holds only word characters, whitespace, "+", "#", "." and "-" |
| ResumeParser.CleaningPass | resume_parser.py:351-356 | every skill cleaned; those longer than one character kept once each, in first-seen order |
| ResumeParser.VocabularyPass | resume_parser.py:344-349 | the found list grows at its end by exactly the vocabulary terms the test finds |
| ResumeParser.SectionSkills | resume_parser.py:329-340 | every piece stripped and longer than one character |
| ResumeParser.SkillsOf | resume_parser.py:325-358 | at most twenty skills, no duplicates, each longer than one character |
| ResumeParser.SkillsOfClean | resume_parser.py:325-358 | every skill is stripped and holds only the characters cleaning keeps |
| ResumeParser.ExtractSkills | resume_parser.py:325-358 | corrected: the vocabulary term must stand alone (see Findings) |
| ResumeParser.ExtractSkillsAsWritten | resume_parser.py:325-358 | as written: `\b` on both sides of each vocabulary term |
| ResumeParser.CollectSectionSkills | resume_parser.py:329-340 | the section loop computes `SectionSkills` |
| ResumeParser.CollectPieces | resume_parser.py:337-340 | the piece loop keeps the stripped pieces longer than one character |
| ResumeParser.AddVocabulary | resume_parser.py:343-349 | the vocabulary loop computes `VocabularyPass` |
| ResumeParser.CleanSkills | resume_parser.py:352-356 | the cleaning loop computes `CleaningPass` |
| ResumeParser.ResumeCPlusPlusMissed | resume_parser.py:347 | as written the text "C++" does not yield the skill "C++"; the corrected test finds it |
| ResumeParser.ParsedFields | resume_parser.py:218-253 | a formatted phone or "", a LinkedIn URL starting "http" or "", at most twenty distinct skills, at most three education lines, a summary of at most 300 characters |
| ResumeParser.ParsedCandidate.constructor | resume_parser.py:44-63 | a parsed candidate holding the given fields |
| ResumeParser.ParseText | resume_parser.py:218-253 | every extractor runs on the cleaned text |
| ResumeParser.Extract | resume_parser.py:234-251 | the fields are `ParsedFields` of the cleaned text |
| GeminiParser.GeminiParsedCandidate.constructor | gemini_parser.py:23-48 | a candidate with every field at its default, the lists empty; the second constructor holds the given fields |
| GeminiParser.ItemText | gemini_parser.py:206-207 | `str(item).strip()`: stripped, the strip of a string item, the `str()` text of a float item |
| GeminiParser.ItemTexts | gemini_parser.py:200-208 | every item as its text, in order |
| GeminiParser.CommaItems | gemini_parser.py:195-197 | every comma-separated item is non-empty and stripped |
| GeminiParser.CleanTexts | gemini_parser.py:199-209 | at most 20 texts longer than one character, each from the input; all of them when there are at most 20 |
| GeminiParser.ListField | gemini_parser.py:190-214 | [] for a falsy value or one that is neither a string nor a list |
| GeminiParser.ListFieldShape | gemini_parser.py:190-214 | at most 20 items, each stripped and longer than one character; from a list, each the text of one of its items |
| GeminiParser.StringField | gemini_parser.py:195-209 | a string field gives its comma-split parts, stripped, longer than one character, at most 20 |
| GeminiParser.ListFieldIdempotent | gemini_parser.py:190-214 | cleaning a cleaned list changes nothing |
| GeminiParser.ListFieldOfClean | gemini_parser.py:199-209 | a list of at most 20 stripped texts longer than one character is already clean |
| GeminiParser.CleanListField | gemini_parser.py:190-214 | the method with its loop computes `ListField` |
| GeminiParser.CleanItems | gemini_parser.py:200-208 | the loop keeps the item texts longer than one character, in order |
| GeminiParser.CleanItem | gemini_parser.py:201-207 | each branch of the loop computes the item's text |
| GeminiParser.Scalar | gemini_parser.py:170-179 | `str(data.get(key, '')).strip()`: "" for a missing key, "None" for a JSON null, the strip of a string, a float's `str()` text ("5.5" for `total_experience` 5.5) |
| GeminiParser.ListOf | gemini_parser.py:182-185 | [] for a missing key |
| GeminiParser.EmptyObject | gemini_parser.py:165-188 | an empty object gives the default candidate |
| GeminiParser.NullName | gemini_parser.py:170 | a null name becomes "None", so the hybrid parser takes the reply; a missing one becomes "" (see also line 313) |
| GeminiParser.CreateCandidateFromJson | gemini_parser.py:165-188 | every field read from the object, text fields stripped and list fields cleaned |
| GeminiParser.StripReplyFence | gemini_parser.py:144-150 | a reply not opening with a fence is only stripped; the result is always stripped |
| GeminiParser.LongerFence | gemini_parser.py:145-148 | a reply opening with the JSON fence also opens with the bare one, so the first branch decides |
| GeminiParser.FenceAlone | gemini_parser.py:146 | removing the fences from a bare fence leaves nothing |
| GeminiParser.FencedReply | gemini_parser.py:144-146 | a JSON-fenced reply whose body has no backtick gives its body, stripped |
| GeminiParser.GeminiCandidate | gemini_parser.py:120-163 | an uninitialised parser, a missing or empty reply, or one that does not decode gives the default candidate |
| GeminiParser.FencedJsonCandidate | gemini_parser.py:144-155 | a JSON-fenced reply whose body decodes to an object gives that object's candidate |
| GeminiParser.EmailIssues | gemini_parser.py:226-230 | an issue exactly for a non-empty e-mail the pattern does not match at its start |
| GeminiParser.LinkedInIssues | gemini_parser.py:232-237 | none for an empty URL; otherwise one issue when the URL does not mention "linkedin.com" and one when it has no protocol, independently |
| GeminiParser.PhoneIssues | gemini_parser.py:239-243 | an issue exactly for a non-empty phone without three digits in a row |
| GeminiParser.OneSkillIssues | gemini_parser.py:246-254 | a skill raises one issue per kind it names: education term, company term |
| GeminiParser.SkillIssuesCount | gemini_parser.py:245-254 | as many issues as education-term skills plus company-term skills |
| GeminiParser.AddIssues | gemini_parser.py:230-254 | `setdefault(key, []).extend(xs)`: no key for no issues |
| GeminiParser.FieldIssues | gemini_parser.py:224-243 | a key for e-mail, LinkedIn URL and phone exactly when that field has issues; none for skills yet |
| GeminiParser.IssuesOf | gemini_parser.py:216-256 | a key only for a field with an issue, with both directions for each of the four fields |
| GeminiParser.ValidateParsedData | gemini_parser.py:216-256 | the method computes `IssuesOf` |
| GeminiParser.CheckEmail | gemini_parser.py:226-230 | the e-mail check adds the e-mail issues |
| GeminiParser.CheckLinkedIn | gemini_parser.py:232-237 | the two URL checks add the URL issues |
| GeminiParser.CheckPhone | gemini_parser.py:239-243 | the phone check adds the phone issues |
| GeminiParser.AppendIssue | gemini_parser.py:235-237 | appending after a batch of issues extends the batch |
| GeminiParser.AddSkillIssues | gemini_parser.py:245-254 | the skills loop adds the skill issues under one key |
| GeminiParser.SetDefaultAppend | gemini_parser.py:230 | `setdefault(key, []).append(x)`: the key's list grows by `x`, other keys unchanged |
| GeminiParser.TwoIssuesForOneSkill | gemini_parser.py:246-254 | one skill can raise two issues |
| GeminiParser.JoinedOrEmpty | gemini_parser.py:365-370 | `sep.join(xs) if xs else ''`: "" for none, the item itself for one |
| GeminiParser.ConvertToDict | gemini_parser.py:356-372 | lists joined, "" when empty; name, company and position copied |
| GeminiParser.DictListRoundTrip | gemini_parser.py:190-209 | a clean list without commas written as the dictionary does reads back unchanged through the list cleaner (see also line 365) |
| GeminiParser.ConvertTraditionalToDict | gemini_parser.py:374-390 | certifications and languages always empty; skills "" when none |
| GeminiParser.RawText | gemini_parser.py:309 | the text itself up to 500 characters; else its first 500 and "..." |
| GeminiParser.ParseOutcome | gemini_parser.py:294-354 | success unless both parsers failed; the AI result exactly when asked for, initialised and named; the traditional result with its review note otherwise |
| GeminiParser.ParseResume | gemini_parser.py:294-354 | the method computes `ParseOutcome` |
| ResumeBuilder.ExtractYears | resume_builder.py:237-249 | 0 for empty text and for text without the years pattern |
| ResumeBuilder.YearsOfCount | resume_builder.py:242-246 | digits followed by " years" read back as their value |
| ResumeBuilder.YearsOfNat | resume_builder.py:237-249 | the text of a count followed by " years" reads back as the count |
| ResumeBuilder.TraditionalYears | resume_builder.py:199 | the traditional parser's experience text reads back as the number it found |
| ResumeBuilder.Cleaned | resume_builder.py:257-275 | at most `limit` pieces, each non-empty, stripped and from the input |
| ResumeBuilder.CleanedOfClean | resume_builder.py:261-275 | stripped, non-empty pieces are kept as they are, up to the limit |
| ResumeBuilder.ListTexts | resume_builder.py:257-271 | a list's truthy items as text, or none where `.strip()` on an item raises |
| ResumeBuilder.ListTextsOfStrings | resume_builder.py:257 | a list of strings gives back its strings |
| ResumeBuilder.EducationPieces | resume_builder.py:274 | no piece holds a "vertical bar" or a newline |
| ResumeBuilder.CleanSkills | resume_builder.py:251-263 | no skills for a falsy value or one that is neither list nor string; an error exactly where a list item raises; at most fifteen |
| ResumeBuilder.CleanEducation | resume_builder.py:265-277 | the same for education, with bars and newlines separating and at most three |
| ResumeBuilder.CleanSkillsOfList | resume_builder.py:256-257 | a list of clean skills loses only what lies beyond the fifteenth |
| ResumeBuilder.CleanSkillsIdempotent | resume_builder.py:251-263 | cleaning cleaned skills again changes nothing |
| ResumeBuilder.SkillsRoundTrip | resume_builder.py:259-261 | skills joined with ", " by the hybrid parser come back in order, the first fifteen (together with gemini_parser.py:365) |
| ResumeBuilder.EducationRoundTrip | resume_builder.py:273-275 | education joined with a vertical bar between spaces comes back in order, the first three (together with gemini_parser.py:368) |
| ResumeBuilder.MethodOf | resume_builder.py:180 | the parsing method is never "failed" on the hybrid path and names the parser that succeeded |
| ResumeBuilder.TextSkills | resume_builder.py:173-177 | `_clean_skills` of the joined string the hybrid dictionary holds never raises, and keeps at most fifteen skills |
| ResumeBuilder.TextEducation | resume_builder.py:175 | `_clean_education` of the joined string never raises, and keeps at most the education limit |
| ResumeBuilder.FromHybrid | resume_builder.py:161-182 | the hybrid result's method and issues, cleaned lists within their limits, name and summary taken from the data |
| ResumeBuilder.OrDefault | resume_builder.py:195-208 | `x or default` on a string |
| ResumeBuilder.FromTraditional | resume_builder.py:190-213 | method "traditional", no issues, no certifications or languages, the parser's lists, a non-empty name and summary |
| ResumeBuilder.ParseResumeText | resume_builder.py:152-235 | "failed" exactly when the hybrid parser gave no success and the traditional one gave nothing, with the minimal record and its note; a hybrid success keeps its issues |
| ResumeBuilder.TraditionalHasNoCertifications | resume_builder.py:205-206 | the traditional path never yields certifications or languages, directly or through the hybrid parser (together with gemini_parser.py:387-388) |
| ResumeBuilder.GeminiListsKept | resume_builder.py:172-175 | when the AI parser succeeds its clean lists come through: the first fifteen skills and three education entries, in order (together with gemini_parser.py:313-321) |
| ResumeBuilder.LastIndex | resume_builder.py:519 | the last position of the character, or none exactly when it does not occur |
| ResumeBuilder.BaseName | resume_builder.py:519 | the last component of a path, without "/" |
| ResumeBuilder.Suffix | resume_builder.py:519 | `Path(filename).suffix`: "" or a "." followed by at least one character and no further dot |
| ResumeBuilder.SuffixOf | resume_builder.py:519 | a name with one dot inside has the suffix from that dot |
| ResumeBuilder.DotFileHasNoSuffix | resume_builder.py:519 | a dot file such as ".pdf" has no suffix |
| ResumeBuilder.ValidateFile | resume_builder.py:513-530 | valid exactly for a supported suffix in any case and a size between 1 byte and 10 MiB; the format checked first, then emptiness, then size |
| ResumeBuilder.ProcessResume | resume_builder.py:532-562 | an invalid file fails with the validation message exactly when validation fails; success exactly for a valid file whose text is not blank, with its size and name recorded |
| ResumeBuilder.StripSchemeOf | resume_builder.py:387 | an "https" URL loses its scheme and nothing else |
| ResumeBuilder.ContactPartsOf | resume_builder.py:383-390 | the e-mail first when there is one, then the LinkedIn URL without its scheme or else the phone |
| ResumeBuilder.ContactParts | resume_builder.py:383-390 | the appends compute `ContactPartsOf` |
| ResumeBuilder.ContactLine | resume_builder.py:392-394 | no contact line exactly when e-mail, LinkedIn URL and phone are all empty |
| ResumeBuilder.ContactLineRoundTrip | resume_builder.py:383-394 | clean parts without a bar are read back from the contact line |
| ResumeBuilder.SafeName | resume_builder.py:575 | the stem holds only characters `[\w\s-]` keeps and no space, and is stripped |
| ResumeBuilder.StemExcludes | resume_builder.py:575 | a stem has no "." and no "/" |
| ResumeBuilder.SafeNameIdempotent | resume_builder.py:575 | sanitising a sanitised stem changes nothing |
| ResumeBuilder.SafeNameOfClean | resume_builder.py:575 | a stripped name of kept characters only has its spaces made "_" |
| ResumeBuilder.ResumeFileName | resume_builder.py:574-577 | the generated name ends in ".pdf" |
| ResumeBuilder.GeneratedNameValid | resume_builder.py:517-530 | a generated resume saved under its generated name has the suffix ".pdf" and passes the upload check (see also lines 574-577) |
| Autofill.FilledIff | candidate_autofill.py:342 | a value counts as filled in exactly when it is truthy and its text is not blank (see also line 437) |
| Autofill.ReprVisible | candidate_autofill.py:342 | the text of a non-string value never starts with whitespace (see also line 437) |
| Autofill.LastFilled | candidate_autofill.py:341-343 | the value of the last filled-in form entry for a key; none exactly when no entry for it is filled in |
| Autofill.MergedAt | candidate_autofill.py:333-345 | key by key: present when extracted or filled in; the last filled-in form value wins; otherwise the extracted value stays |
| Autofill.BlankFormKeepsExtracted | candidate_autofill.py:336-343 | a form that fills nothing in leaves the extracted data as it was |
| Autofill.MergeWithFormData | candidate_autofill.py:333-345 | the copy-and-override loop computes `Merged` |
| Autofill.Shown | candidate_autofill.py:438 | `str(value).strip()`: non-empty and stripped for a filled-in value |
| Autofill.Kept | candidate_autofill.py:435-438 | only filled-in fields among the keys, each as its shown text, non-empty and stripped |
| Autofill.KeptCovers | candidate_autofill.py:435-438 | every filled-in field among the keys is kept |
| Autofill.FillFields | candidate_autofill.py:435-438 | the loop computes `Kept` |
| Autofill.CreateCandidateFromExtractedData | candidate_autofill.py:418-442 | only the eleven record fields, each filled in, stripped and non-empty |
| Autofill.UrlErrors | candidate_autofill.py:466-472 | at most one URL error: no scheme, or else no "linkedin.com" in any case |
| Autofill.EmailErrors | candidate_autofill.py:459-464 | an e-mail error exactly for a non-empty address the pattern does not match at its start |
| Autofill.ValidationErrors | candidate_autofill.py:444-476 | each error exactly when its condition holds on the stripped fields (name missing, URL missing, e-mail invalid, no scheme, not LinkedIn) |
| Autofill.StrippedErrors | candidate_autofill.py:454-474 | the same errors from the already stripped fields |
| Autofill.ValidateExtractedData | candidate_autofill.py:444-476 | the errors are `ValidationErrors`, and valid exactly when there are none |
| Autofill.ReportErrors | candidate_autofill.py:454-474 | the appends compute `StrippedErrors` |
| Autofill.LinkedInUrlAccepted | candidate_autofill.py:466-472 | an https URL on linkedin.com raises no URL error |
| Autofill.ValidRecord | candidate_autofill.py:444-476 | a stripped name, a matching e-mail and an https URL on linkedin.com make a valid record |
| AiContent.Generator.PreferredService | ai_content_generator.py:247-254 | "gemini" exactly when Gemini is available, "ollama" exactly when only Ollama is, else "none" |
| AiContent.PreferredIffAvailable | ai_content_generator.py:247-258 | a service is named exactly when `is_available` holds |
| AiContent.OllamaReply | ai_content_generator.py:183-210 | nothing is asked when no model is installed; otherwise the server's reply for the first model |
| AiContent.GenerateJobDescription | ai_content_generator.py:70-112 | text only from an available service, and only Gemini's or Ollama's; nothing for an unknown service name |
| AiContent.RequestedServiceNoFallback | ai_content_generator.py:99-102 | a service asked for by name that is unavailable gives nothing even when the other is available |
| AiContent.AutoOrder | ai_content_generator.py:103-110 | "auto" takes Gemini's text when Gemini is available and wrote something, and otherwise Ollama's when it is available |
| AiContent.AutoStartsWithPreferred | ai_content_generator.py:103-110 | "auto" starts with the preferred service (see also lines 247-254) |
| AiContent.Classify | ai_content_generator.py:225-238 | the header tests come first; an item is a bullet whose text after the bullet character, stripped, is not empty |
| AiContent.Kinds | ai_content_generator.py:215-222 | one kind per line |
| AiContent.SectionAfter | ai_content_generator.py:218-230 | the section in effect changes only at a header line |
| AiContent.SkillsIn | ai_content_generator.py:233-240 | no more skills than lines |
| AiContent.HeaderFirst | ai_content_generator.py:225-238 | a line naming both sections opens the required one; a bullet naming a section is a header; an item exactly when no header and a non-empty bullet |
| AiContent.ParsedSkillsClean | ai_content_generator.py:212-242 | every parsed skill is non-empty and stripped |
| AiContent.SkillSource | ai_content_generator.py:233-240 | every skill comes from an item read while its section was in effect |
| AiContent.EmptyLineIsOther | ai_content_generator.py:222-223 | a blank line is neither a header nor a skill |
| AiContent.ScanStep | ai_content_generator.py:220-240 | one more line: a header switches the section, an item of the wanted section is collected, nothing else changes |
| AiContent.SectionAppend | ai_content_generator.py:220-240 | reading two runs of lines is reading the second from where the first ends |
| AiContent.SkillsAppend | ai_content_generator.py:220-240 | the skills of two runs are those of the first followed by those of the second |
| AiContent.HeaderlessLines | ai_content_generator.py:218-240 | without a header no skill is collected |
| AiContent.LeadingBulletsIgnored | ai_content_generator.py:218-240 | bullets before the first header are ignored |
| AiContent.BulletedLines | ai_content_generator.py:140-152 | the "- " lines of plain skills are stripped, non-empty, single lines and read as items of those skills |
| AiContent.ReplyLinesClean | ai_content_generator.py:140-152 | the lines of a reply in the requested layout are stripped, non-empty single lines |
| AiContent.ReplySplits | ai_content_generator.py:215 | such a reply splits back into its lines |
| AiContent.LayoutSkills | ai_content_generator.py:220-240 | two headers each followed by items give back the items of each |
| AiContent.ReplyRoundTrip | ai_content_generator.py:140-152 | a reply laid out under any two header lines reads back as the two lists it was written from (see also lines 212-242) |
| AiContent.SkillsRoundTrip | ai_content_generator.py:140-152 | a reply in the layout the prompt asks for reads back as its two lists (see also lines 212-242) |
| AiContent.ParseSkillsResponse | ai_content_generator.py:212-245 | the method computes `ParseSkills` |
| AiContent.ScanReply | ai_content_generator.py:220-240 | the loop collects the required and the preferred skills `SkillsIn` gives |
| AiContent.ClassifyLine | ai_content_generator.py:225-238 | the tests of the loop body compute `Classify` |
| AiContent.GenerateSkills | ai_content_generator.py:114-172 | nothing exactly when no service wrote text; otherwise the two lists read from the text the services give in the same order |
| Formatting.Escape | email_templates.py:65-66 | literal text written for `str.format`: braces doubled, text without braces unchanged |
| Formatting.Interleave | hr_email_config.py:29-119 | a template written as text, field, text, ..., field, text has exactly those fields |
| Formatting.InterleaveWellFormed | hr_email_config.py:29-119 | such a template with keyword field names is well formed |
| Formatting.FillIff | email_templates.py:63-76 | filling succeeds exactly when every field has a variable; a failure names a field without one |
| Formatting.FillAgrees | email_templates.py:65-66 | filling depends only on the variables the fields name |
| Formatting.ClosingBrace | email_templates.py:124-125 | `\{(\w+)\}` ends a name only at "}" |
| Formatting.NameEnds | email_templates.py:65-66 | `str.format` ends a field name at "}", "!", ":", "." or "[" |
| Formatting.WordRun | email_templates.py:124-125 | the leading run of word characters |
| Formatting.FieldHere | email_templates.py:124-125 | the name of the field opening the text, or none exactly when no field opens it |
| Formatting.FieldRuns | email_templates.py:124-125 | a field's name is the run of word characters after its brace |
| Formatting.SpecHere | email_templates.py:65-66 | a field with a conversion, spec, attribute or index: its name, not closed at once |
| Formatting.TokenAt | email_templates.py:65-66 | the next token of `str.format`: literal text, a bare named field, or a field with a conversion or spec |
| Formatting.FormatEscaped | email_templates.py:65-66 | escaped literal text comes out as it was |
| Formatting.FormatField | email_templates.py:65-76 | a bare field is replaced by its variable, or raises `KeyError` naming it |
| Formatting.FieldAtUnique | email_templates.py:124-125 | at most one field starts at a given place |
| Formatting.FormatSource | email_templates.py:65-66 | formatting the stored text of a well-formed template is filling its pieces |
| Formatting.KeyStep | email_templates.py:65-66 | the field a format fails on either opens the text or comes later |
| Formatting.FormatKeyAt | email_templates.py:65-76 | every key a format fails on opens a field of the text and has no variable |
| Formatting.FieldFound | email_templates.py:124-125 | `findall` reports every field it looks for |
| Formatting.MissingKeyListed | email_templates.py:65-66 | a key a format misses is listed by a scan accepting every name end, and has no variable (see also lines 124-125) |
| Formatting.SpecFieldScans | email_templates.py:124-125 | a field with a spec after its name is missed by `\{(\w+)\}` and listed by the corrected scan |
| Formatting.SpecFieldMissing | email_templates.py:65-76 | such a field whose name has no variable raises `KeyError` with that name |
| Formatting.NoBraceNoFields | email_templates.py:124-125 | text without an opening brace holds no field |
| EmailTemplates.CandidateData.constructor | email_templates.py:11-19 | a record holding the six given values |
| EmailTemplates.CandidateData.ToDict | email_templates.py:21-30 | exactly the six candidate keys, name and job title under their names |
| EmailTemplates.CompanyVars | email_templates.py:37-44 | exactly the six company keys |
| EmailTemplates.TemplateVars | email_templates.py:60 | both key sets; the candidate's values win |
| EmailTemplates.VariablesSupplied | email_templates.py:60 | every variable a built-in template uses is supplied (together with hr_email_config.py:29-119) |
| EmailTemplates.Render | email_templates.py:63-76 | subject, then body, then tidying; a failure is never a missing template |
| EmailTemplates.RenderEmail | email_templates.py:46-75 | the lookup's error passes through unchanged, and exactly when the lookup fails |
| EmailTemplates.RenderWellFormed | email_templates.py:63-76 | for keyword fields, rendering succeeds exactly when every placeholder has a value; the failure names one without |
| EmailTemplates.RenderMissingListed | email_templates.py:63-76 | any missing variable is one the text names and has no value (see also lines 124-125) |
| EmailTemplates.RenderBuiltin | email_templates.py:46-75 | every built-in template renders for any candidate and settings (together with hr_email_config.py:29-134) |
| EmailTemplates.SpaceRun | email_templates.py:80 | the whitespace run opening the text |
| EmailTemplates.LastBreakEnd | email_templates.py:80 | one past the last line break, with no break after it |
| EmailTemplates.Collapse | email_templates.py:80 | `re.sub(r'\n\s*\n\s*\n', '\n\n', s)`: never longer |
| EmailTemplates.CleanEmailBody | email_templates.py:77-83 | no carriage return is left and the body is stripped |
| EmailTemplates.CollapseTidy | email_templates.py:80 | collapsing leaves a tidy text alone |
| EmailTemplates.CollapseKeepsRun | email_templates.py:80 | a whitespace run with at most one line break is kept |
| EmailTemplates.CollapsedIsTidy | email_templates.py:80 | after collapsing the pattern matches nowhere |
| EmailTemplates.SortedSet | email_templates.py:137-139 | `sorted(set)`: ascending, each element once, same elements |
| EmailTemplates.ScanEnds | email_templates.py:124-125 | a name end is never a word character or "{" |
| EmailTemplates.AvailableListKeys | email_templates.py:129-132 | the available variables are the company and candidate keys |
| EmailTemplates.MissingOf | email_templates.py:134 | sorted, distinct, exactly the found names without a variable; empty exactly when all are supplied |
| EmailTemplates.Validate | email_templates.py:114-142 | the template's name and three sorted, distinct lists |
| EmailTemplates.ValidateTemplateVariables | email_templates.py:114-142 | the lookup's error exactly when the lookup fails, otherwise the check |
| EmailTemplates.ValidRenders | email_templates.py:114-142 | a template the corrected check passes never fails rendering for want of a variable (see also lines 63-76) |
| EmailTemplates.SpecFieldSlipsThrough | email_templates.py:124-125 | as written the check passes the template "{foo:>5}" and rendering it then fails on "foo"; the corrected check fails it (see also lines 65-66) |
| EmailTemplates.EnhanceCandidateData | email_templates.py:150-183 | the same record, skills, experience and title rewritten |
| EmailTemplates.EnhanceSkills | email_templates.py:160-166 | only the skills change |
| EmailTemplates.EnhanceYears | email_templates.py:168-176 | only the experience changes |
| EmailTemplates.EnhanceTitle | email_templates.py:178-180 | only the job title changes |
| EmailTemplates.SkillsEnhanced | email_templates.py:160-166 | skills are stripped exactly when the stripped text is non-empty and does not end with "."; the comma test changes nothing |
| EmailTemplates.YearsEnhanced | email_templates.py:168-176 | an all-digit experience becomes the phrase for its value; anything else is untouched |
| EmailTemplates.PhraseShape | email_templates.py:172-176 | a phrase is stripped and not all digits |
| EmailTemplates.YearsIdempotent | email_templates.py:168-176 | enhancing experience twice is enhancing once |
| EmailTemplates.SkillsIdempotent | email_templates.py:160-166 | enhancing skills twice is enhancing once |
| EmailTemplates.TitleAt | email_templates.py:180 | `title()`: upper case after a non-letter, lower case after a letter |
| EmailTemplates.TitleIdempotent | email_templates.py:180 | title-casing twice is title-casing once |
| EmailTemplates.EnhanceIdempotent | email_templates.py:150-183 | cleaning up a record a second time leaves it as the first pass did |
| EmailTemplates.SubjectCandidates | email_templates.py:196-202 | five candidate subject lines |
| EmailTemplates.SubjectVariations | email_templates.py:185-204 | at most five, each at most 78 characters, every fitting line kept, in their original order |
| EmailSystem.ManualVars | enhanced_email_system.py:52-63 | exactly the ten variables: the candidate's name and job, the settings, "3+" and "Technical Skills" |
| EmailSystem.Compose | enhanced_email_system.py:49-67 | a missing-template error exactly when the lookup fails |
| EmailSystem.ComposeWellFormed | enhanced_email_system.py:49-67 | a template of keyword fields drawn from the ten variables composes into the template with the variables filled in |
| EmailSystem.ComposeBuiltin | enhanced_email_system.py:49-67 | every built-in template composes, whatever the candidate, job and settings (together with hr_email_config.py:29-130) |
| EmailSystem.Deliver | enhanced_email_system.py:69-94 | at most one log entry, exactly when composing succeeded, carrying the message and the send result; success only with an entry |
| EmailSystem.ManualAttempt | enhanced_email_system.py:29-94 | an entry is logged exactly when composing succeeds; success implies it |
| EmailSystem.OutcomeOf | enhanced_email_system.py:127-163 | skipped exactly when not selected; no mail exactly when selected without a usable address; otherwise one attempt to the address |
| EmailSystem.ApplyAttempt | enhanced_email_system.py:150-163 | an attempt counts as sent or failed and appends its log entries |
| EmailSystem.BulkNext | enhanced_email_system.py:127-163 | the batch is the candidates' outcomes applied in order |
| EmailSystem.ApplyCounts | enhanced_email_system.py:136-163 | one step keeps the counters equal to the lengths of the lists |
| EmailSystem.ApplyTotal | enhanced_email_system.py:132-136 | a candidate is counted unless skipped |
| EmailSystem.BulkCounts | enhanced_email_system.py:116-163 | the sent and failed counters equal the lengths of the sent and failed lists, and add up to the total |
| EmailSystem.BulkTotal | enhanced_email_system.py:127-136 | every selected candidate is counted once, and nobody else |
| EmailSystem.BulkSentTo | enhanced_email_system.py:150-157 | only selected candidates with usable addresses are reported as sent to |
| EmailSystem.BulkFailedTo | enhanced_email_system.py:138-163 | only selected candidates are reported as not reached, and a missing address is never tried |
| EmailSystem.BulkLogEntries | enhanced_email_system.py:69-78 | every logged entry carries the batch's job, template and time and a usable address (see also line 150) |
| EmailSystem.BulkJobTitle | enhanced_email_system.py:123 | the result carries the batch's job title |
| EmailSystem.BulkLogged | enhanced_email_system.py:69-78 | when the template composes for everyone the log grows by the messages sent plus those the server refused (see also lines 127-163) |
| EmailSystem.PreviewEmail | enhanced_email_system.py:201-235 | never raises: an error becomes its message; otherwise the banner-framed preview of the composed message |
| EmailSystem.PreviewStripped | enhanced_email_system.py:223-231 | stripping the preview's surrounding line breaks and indentation leaves it whole, opening and closing with its banners |
| EmailSystem.EmailManager.constructor | enhanced_email_system.py:25-27 | the given settings, the built-in lookup and an empty log |
| EmailSystem.EmailManager.SendManualEmail | enhanced_email_system.py:29-94 | the result and the log entry of `ManualAttempt`; nothing else changes |
| EmailSystem.EmailManager.BulkStep | enhanced_email_system.py:127-163 | one loop iteration applies the candidate's outcome |
| EmailSystem.EmailManager.NoMailStep | enhanced_email_system.py:138-145 | a selected candidate without an address is counted as failed and nothing is logged |
| EmailSystem.EmailManager.MailStep | enhanced_email_system.py:147-163 | a selected candidate with an address is sent a manual email and counted by its result |
| EmailSystem.EmailManager.SendBulkEmails | enhanced_email_system.py:96-172 | an unknown job title gives the error and changes nothing; otherwise the result and the log of `Bulk` over the job's shortlist |
| Sorting.SortDesc | candidate_shortlisting.py:272 | `sort(key=..., reverse=True)`: sorted by descending key, a permutation of the input (see also line 357) |
| Sorting.SortDescStable | candidate_shortlisting.py:272 | the sort is stable: elements with equal keys keep their input order (see also line 357) |
| Sorting.TopOf | candidate_shortlisting.py:272-274 | the best `n`: sorted, drawn from the input, at most `n`, all of them when there are no more than `n` (see also lines 357-358) |
| Sorting.SortByText | database_manager.py:316 | `ORDER BY` a text column: ascending by the key, a permutation of the input |
| Patterns.FirstMatch | resume_parser.py:77-93 | the first position where a pattern matches: none before it, and none at all when nothing is found |
| Patterns.SearchYears | resume_builder.py:242-243 | the group of `(\d+)\+?\s*years?` is digits |
| Patterns.SearchExperienceYears | resume_parser.py:90-94 | the group of the first experience pattern that matches is digits (see also lines 362-366) |
| Patterns.PhoneAt | resume_parser.py:77 | the three groups of a phone match are three, three and four digits |
| Patterns.SearchPhone | resume_parser.py:77 | the groups of the first phone match are three, three and four digits (see also line 269) |
| Patterns.SearchLinkedIn | resume_parser.py:80 | the first LinkedIn URL found is non-empty (see also line 278) |
| Patterns.EmailExample | resume_parser.py:74 | "john@example.com" matches the e-mail pattern (together with gemini_parser.py:228) |
| Patterns.EmailNeedsAt | gemini_parser.py:228 | text without "@" never matches the e-mail pattern (together with candidate_autofill.py:462) |
| Patterns.BlockEnd | resume_parser.py:98-100 | `[^\n]+(?:\n[^\n]+)*` ends before a blank line or at the end, and holds no blank line |
| Patterns.SectionsFrom | resume_parser.py:98-100 | every group `findall` returns is non-empty (see also lines 329-331) |
| Patterns.SectionsAreBlocks | resume_parser.py:98-100 | every group `findall` returns is a block of non-empty lines (see also lines 329-331) |
| Patterns.SplitOnRuns | resume_parser.py:336 | `re.split` on runs of separators: at least one piece, no piece holds a separator |
| Patterns.SplitOnRunsKeeps | resume_parser.py:336 | the pieces put back together are the text without its separators |
| Ratios.PercentTenths | src/reporting.py:214-215 | a percentage shown with one decimal is the exact percentage rounded to the nearest tenth (together with team_manager.py:166) |
| Ratios.PercentTenthsBounds | src/reporting.py:214-215 | a shown proportion lies between 0.0 and 100.0, is 0.0 for none and 100.0 for all (together with team_manager.py:166) |
| Ratios.ShownFull | team_manager.py:166 | "100.0%" is shown exactly when at least 99.95% of the whole is there |
| PyValue.Str | gemini_parser.py:170 | `str(v)`: a string is itself, `None` is "None" (together with candidate_autofill.py:438) |
| PyValue.FloatTextStripped | gemini_parser.py:178 | a float's `str()` text has no surrounding whitespace, so `str(value).strip()` keeps it whole |
| PyValue.EscapeChar | gemini_parser.py:206-207 | how `repr` writes one character of a string inside a list: the chosen quote never starts an escape, and every quote inside one follows a backslash |
| PyValue.StrRepr | gemini_parser.py:206-207 | `repr` of a string nested in a list: both ends carry the quote `repr` picks |
| PyValue.QuoteFor | gemini_parser.py:206-207 | `repr` picks double quotes exactly for a string with a single quote and no double quote, single quotes otherwise |
| PyValue.EscapeRoundTrip | gemini_parser.py:206-207 | the escaped body of a string's `repr` reads back as the string itself |
| PyValue.EscapedQuote | gemini_parser.py:206-207 | inside the escaped body, every occurrence of the chosen quote follows a backslash, so the literal ends only at its closing quote |
| PyValue.ReprSingleton | gemini_parser.py:206-207 | a one-item list shows as its item's `repr` between brackets |
| PyValue.ApostropheQuoted | gemini_parser.py:206-207 | `repr("it's")` is `"it's"` between double quotes |
| PyValue.ApostropheExample | gemini_parser.py:206-207 | the nested list `["it's"]` shows with double quotes around the item |
| PyValue.BackslashExample | gemini_parser.py:206-207 | `repr` doubles a backslash: `a\b` shows as `'a\\b'` |
| PyValue.Get | gemini_parser.py:170-185 | `d.get(key, default)`: the stored value, or the default for a missing key |
| JsonCodec.Hex4RoundTrip | src/database.py:122 | a `\uXXXX` code reads back as its value |

## Left out

- PyValue.StrRepr: characters beyond ASCII are taken to be printable. Python's `repr` also escapes the non-printable ones (U+00A0 shows as `\xa0`).
- PyValue.Value: a float is carried as its `str()` text ("5.5", "1e+20"); its digits are not derived from a binary double.
- Text.Lower: `lower`, `upper`, `title`, `capitalize` and `strip` are modelled on ASCII letters and ASCII whitespace only. Python's Unicode case mappings and Unicode whitespace are not modelled.
- Patterns.FirstMatch: `\w`, `\s`, `\d` and `re.IGNORECASE` are modelled on ASCII only. The regular expressions are hand-coded one by one, and there is no general regex engine.
- ResumeParser.ExtractName: the name patterns are hand-coded (`WholeLineName`, `TwoCapWords`, `InitialledName`, `ThreeCapWords`) on ASCII letters, as `Patterns.FirstMatch` says; a capital outside ASCII is not recognised.
- ResumeParser.ParseText: `extract_email`, `extract_location` and `extract_current_work` (resume_parser.py) are parameters, not hand-coded patterns.
- Shortlisting.ExtractSkillsFromJob: `list(set(skills))` (candidate_shortlisting.py:330) has no defined order in Python. The model keeps the first occurrence of each skill, in order (`Seqs.Dedup`). The contract states membership and the absence of duplicates, not the order Python would produce.
- Shortlisting.ExtractSkillsFromJob: a hashable item that is not a string, such as the 5 of `{"skills": [5]}`, is kept in the source's list; the model's skills are strings, so it returns none there. `Shortlisting.FindMatches` and `Shortlisting.CandidateShortlister.FindMatchesForJob` still fail only where the source does: at `skill.lower()` (candidate_shortlisting.py:371) once a candidate is scored, and with no candidates they return an empty list.
- Shortlisting.ShortlistScore: scores are exact reals, not IEEE doubles. With 1 of 7 skills found and no title overlap the model scores exactly 0.1 and reaches the default `min_score` of 0.1 (candidate_shortlisting.py:332), while the source computes 0.09999999999999999 (lines 374-375) and drops the candidate.
- AiContent.GenerateJobDescription: the Gemini and Ollama calls, model listing and connection tests are parameters returning an optional text. Their output is not modelled.
- EmailSystem.EmailManager.SendBulkEmails: one `now` value timestamps every e-mail of a batch. The source calls `datetime.now()` once per e-mail.
- EmailSystem.Deliver: the SMTP send (`_send_email`) is a boolean parameter. MIME construction, login and network errors are not modelled.
- EmailTemplates.RenderEmail: attribute access, indexing, conversions and the format mini-language of `str.format` are not rendered. A field with a spec or conversion reads as a formatting error once its name is supplied. Field names that are not `\w+`, and braces nested inside fields, are approximated.
- EmailTemplates.ValidateTemplateVariables: email_templates.py imports an `email_config` module that is not part of this model. Its template lookup is taken to be `get_email_template` from hr_email_config.py (`EmailConfig`).
- LinkedIn.ExtractProfileInfo: scraping with requests or Selenium, the LinkedIn API client and the random sleeps are replaced by a `scrape` parameter. The `extract_profile` orchestration around them is not modelled.
- The timestamps `created_at`, `updated_at`, `report_date` and the résumé file timestamp come from `datetime.now()` in the source. In the model they are parameters.
- The SQL tables are modelled as sequences or maps with a next-id counter. SQL text, transactions and `CURRENT_TIMESTAMP` are not modelled.
- File and console I/O is not modelled. That covers:
  - CSV and JSON reading and writing (`load_team_members`, `save_team_members`, `_add_to_csv`, `export_to_csv`, `save_email_log`, `save_shortlists_to_json`, `load_job_descriptions`, `get_job_candidates`);
  - `verify_import`, `display` and `main` functions, and printing;
  - the `ShortlistGenerator` script, `process_job_description` and `source_candidates` in src/hr_agent.py;
  - `get_generated_resumes` and `delete_resume`.
- ResumeBuilder.ContactLine: ReportLab layout and styling of the generated PDF are not modelled. Only the contact line and the file name are. Text extraction from PDF and DOCX files is a parameter.
- The Streamlit pages, and the `render_*`/`process_*` methods of candidate_autofill.py, are presentation only and are not modelled.
- HrAgent.FallbackScore: scores are exact reals, not IEEE doubles. With no required skills, a partial experience match (0.1) and a matching location (0.2) the model scores exactly 0.3, while the source's sum is 0.30000000000000004 (src/hr_agent.py:168-205), so a comparison at exactly 0.3 can go the other way.
- Reporting.Percentage: rates are exact reals, not IEEE doubles. 29 responses of 100 contacts give exactly 29 in the model and 28.999999999999996 in the source (src/reporting.py:207); the rounded figures are covered by the `Ratios.PercentTenths` line.
- Ratios.PercentTenths: a percentage exactly halfway between two tenths rounds up. Python's `:.1f` rounds the binary double of the quotient, which can lie on either side of the half. A half that the double holds exactly is rounded to even: 1 response out of 16 contacts is 6.25, which Python shows as 6.2 and the model as 6.3.
- Charts and dataframes in src/reporting.py are not modelled, apart from the executive summary. Rates are modelled as rounded to one decimal; the textual `.1f`/`%` formatting is not.

## Findings

| source | as written | input that shows it | evidently intended | confidence | as-written member | corrected member |
|---|---|---|---|---|---|---|
| resume_parser.py:84-86 | `extract_name` tries the two-word name pattern before the three-word one, so the three-word pattern never decides | first line "John Brown Smith Jr." gives "John Brown" | the full three-word name "John Brown Smith" | not executed | ResumeParser.ExtractNameAsWritten | ResumeParser.ExtractName |
| linkedin_scraper.py:364 | the skill test puts `\b` after the escaped term, and no word boundary follows "+" or "#" at the end of a text or before a space | the text "C++" does not yield the skill "C++" | "C++" and "C#" are found like other skills | not executed | LinkedIn.CPlusPlusMissed | LinkedIn.ExtractSkillsFromText |
| resume_parser.py:347 | the same `\b...\b` test in the résumé skill scan | the text "C++" does not yield the skill "C++" | "C++" is found | not executed | ResumeParser.ResumeCPlusPlusMissed | ResumeParser.ExtractSkills |
| src/reporting.py:231 | the job loop rebinds `response_rate`, so the "< 20" test reads the last qualifying job's rate | overall rate 50% with a last job at 10% still advises personalisation | the overall response rate shown in the overview | not executed | Reporting.ShadowedRateExample | Reporting.Recommendations |
| src/hr_agent.py:434-441 | the campaign dict has no "job_id", so `send_outreach_emails` logs every send under job 1 | a campaign generated for job 2 is logged under job 1 | each send is logged under the campaign's job | not executed | HrAgent.SentUnderJobOne | HrAgent.SentUnderCampaignJob |
| src/hr_agent.py:519 | `generate_daily_report` passes the nested report to `save_daily_report`, which reads `candidates_sourced` at the top level | any call raises `KeyError: 'candidates_sourced'` and no report is stored | the report's figures are stored for the date | not executed | HrAgent.HRRecruitmentAgent.GenerateDailyReportAsWritten | HrAgent.HRRecruitmentAgent.GenerateDailyReport |
| email_templates.py:124-125 | `validate_template_variables` finds fields with `\{(\w+)\}`, which misses fields with a format spec | the template "{foo:>5}" passes the check and rendering then fails on "foo" | every field that rendering needs is reported as missing | not executed | EmailTemplates.SpecFieldSlipsThrough | EmailTemplates.ValidRenders |
