/** The email manager: sending one templated email with the manager's
  * default variables, logging each attempt, sending to a job's shortlisted
  * candidates, and previewing. The SMTP session is an oracle `send`
  * telling whether a message to an address was delivered. */
module EmailSystem {
  import opened Wrappers
  import opened Text
  import opened Seqs
  import opened Formatting
  import opened EmailConfig

  /** `_send_email(to, subject, body)`: whether the SMTP server took the
    * message. */
  type Sender = (string, string, string) -> bool

  const DefaultExperience := "3+"
  const DefaultSkills := "Technical Skills"

  /** The ten variables the manager fills templates with. */
  function ManualVars(s: Settings, candidateName: string, jobTitle: string): (d: map<string, string>)
    ensures d.Keys == Variables
    ensures d[CandidateName] == candidateName && d[JobTitle] == jobTitle
    ensures d[ExperienceYears] == DefaultExperience && d[Skills] == DefaultSkills
  {
    map[CandidateName := candidateName, JobTitle := jobTitle,
        CompanyName := s.companyName, CompanyWebsite := s.companyWebsite,
        SenderName := s.senderName, HrContactName := s.hrContactName,
        HrContactEmail := s.hrContactEmail, HrContactPhone := s.hrContactPhone,
        ExperienceYears := DefaultExperience, Skills := DefaultSkills]
  }

  datatype Message = Message(subject: string, body: string)

  /** The exceptions composing a message can raise. */
  datatype SendError = NoTemplate(message: string) | KeyMissing(key: string) | BadFormat

  function Raised(e: FormatError): SendError
  {
    match e
    case KeyError(k) => KeyMissing(k)
    case Unsupported => BadFormat
  }

  /** Looks the template up and formats its subject, then its body. */
  function Compose(lookup: TemplateLookup, s: Settings, templateType: string, candidateName: string, jobTitle: string)
    : (r: Result<Message, SendError>)
    ensures r.Failure? && r.error.NoTemplate? <==> lookup(templateType).Failure?
  {
    match lookup(templateType)
    case Failure(m) => Failure(NoTemplate(m))
    case Success(t) =>
      var vars := ManualVars(s, candidateName, jobTitle);
      match Format(t.SubjectText(), vars)
      case Failure(e) => Failure(Raised(e))
      case Success(subject) =>
        match Format(t.BodyText(), vars)
        case Failure(e) => Failure(Raised(e))
        case Success(body) => Success(Message(subject, body))
  }

  /** A template of keyword fields drawn from the ten variables composes,
    * and the message is the template with the variables filled in. */
  lemma ComposeWellFormed(lookup: TemplateLookup, s: Settings, templateType: string, candidateName: string, jobTitle: string)
    requires lookup(templateType).Success?
    requires WellFormed(lookup(templateType).value.subject) && WellFormed(lookup(templateType).value.body)
    requires forall n :: n in lookup(templateType).value.Placeholders() ==> n in Variables
    ensures Compose(lookup, s, templateType, candidateName, jobTitle).Success?
    ensures Fill(lookup(templateType).value.subject, ManualVars(s, candidateName, jobTitle)).Success?
    ensures Fill(lookup(templateType).value.body, ManualVars(s, candidateName, jobTitle)).Success?
    ensures Compose(lookup, s, templateType, candidateName, jobTitle).value ==
      Message(Fill(lookup(templateType).value.subject, ManualVars(s, candidateName, jobTitle)).value,
              Fill(lookup(templateType).value.body, ManualVars(s, candidateName, jobTitle)).value)
  {
    var t := lookup(templateType).value;
    var vars := ManualVars(s, candidateName, jobTitle);
    FormatSource(t.subject, vars);
    FormatSource(t.body, vars);
    FillIff(t.subject, vars);
    FillIff(t.body, vars);
  }

  /** Every built-in template composes, whatever the candidate, job and
    * settings. */
  lemma ComposeBuiltin(id: TemplateId, s: Settings, candidateName: string, jobTitle: string)
    ensures Compose(GetEmailTemplate, s, Name(id), candidateName, jobTitle).Success?
  {
    BuiltinLookup(id);
    CatalogueWellFormed(id);
    ComposeWellFormed(GetEmailTemplate, s, Name(id), candidateName, jobTitle);
  }

  /** One entry of the email log. */
  datatype LogEntry = LogEntry(
    timestamp: string, candidateName: string, candidateEmail: string,
    jobTitle: string, templateType: string, success: bool, subject: string)

  /** What one call of `send_manual_email` returns and appends to the log. */
  datatype Attempt = Attempt(success: bool, logged: seq<LogEntry>)

  /** Sends a composed message and logs it; nothing is sent or logged when
    * composing raised. */
  function Deliver(composed: Result<Message, SendError>, send: Sender, now: string,
                   candidateName: string, candidateEmail: string, jobTitle: string, templateType: string)
    : (a: Attempt)
    ensures |a.logged| <= 1
    ensures |a.logged| == 1 <==> composed.Success?
    ensures forall e :: e in a.logged ==>
      (e.success == a.success && e.timestamp == now &&
       e.candidateName == candidateName && e.candidateEmail == candidateEmail &&
       e.jobTitle == jobTitle && e.templateType == templateType)
    ensures a.success ==> |a.logged| == 1
    ensures composed.Success? ==> a.success == send(candidateEmail, composed.value.subject, composed.value.body)
  {
    match composed
    case Failure(_) => Attempt(false, [])
    case Success(m) =>
      var ok := send(candidateEmail, m.subject, m.body);
      Attempt(ok, [LogEntry(now, candidateName, candidateEmail, jobTitle, templateType, ok, m.subject)])
  }

  /** `send_manual_email`: compose with the manager's variables, then
    * deliver. */
  function ManualAttempt(lookup: TemplateLookup, s: Settings, send: Sender, now: string,
                         candidateName: string, candidateEmail: string, jobTitle: string, templateType: string)
    : (a: Attempt)
    ensures |a.logged| == 1 <==> Compose(lookup, s, templateType, candidateName, jobTitle).Success?
    ensures a.success ==> Compose(lookup, s, templateType, candidateName, jobTitle).Success?
  {
    Deliver(Compose(lookup, s, templateType, candidateName, jobTitle), send, now,
            candidateName, candidateEmail, jobTitle, templateType)
  }

  // ------------------------------------------------------------ bulk sends

  /** A shortlisted candidate record; an absent field is `None`. */
  datatype Candidate = Candidate(fullName: Option<string>, email: Option<string>)

  datatype Recipient = Recipient(name: string, email: string)

  /** A candidate not reached; `email` is `None` when there was no address. */
  datatype Missed = Missed(name: string, email: Option<string>, reason: string)

  datatype BulkResult = BulkResult(
    totalCandidates: nat, emailsSent: nat, emailsFailed: nat,
    sentTo: seq<Recipient>, failedTo: seq<Missed>, jobTitle: string)

  const NoEmailReason := "No email address"
  const SmtpReason := "SMTP error"

  function NameOf(c: Candidate): string
  {
    if c.fullName.Some? then c.fullName.value else "Unknown"
  }

  function EmailOf(c: Candidate): string
  {
    Strip(if c.email.Some? then c.email.value else "")
  }

  /** An address the manager will not try. */
  predicate NoAddress(email: string)
  {
    email == "" || Lower(email) == "not available" || Lower(email) == "n/a"
  }

  /** A non-empty selection names the candidates to reach; an empty one
    * (or none) means everybody. */
  predicate Chosen(selected: seq<string>, name: string)
  {
    |selected| == 0 || name in selected
  }

  /** The fixed inputs of one bulk send. */
  datatype Batch = Batch(
    lookup: TemplateLookup, settings: Settings, send: Sender, now: string,
    jobTitle: string, templateType: string, selected: seq<string>)

  /** The message the batch composes for a candidate's name. */
  function ComposeFor(b: Batch, name: string): Result<Message, SendError>
  {
    Compose(b.lookup, b.settings, b.templateType, name, b.jobTitle)
  }

  predicate IsChosen(b: Batch, c: Candidate) { Chosen(b.selected, NameOf(c)) }

  /** What the loop does with one candidate. */
  datatype Outcome = Skipped | NoMail | Delivered(logged: seq<LogEntry>) | Refused(logged: seq<LogEntry>)

  function OutcomeOf(b: Batch, c: Candidate): (o: Outcome)
    ensures o.Skipped? <==> !IsChosen(b, c)
    ensures o.NoMail? <==> IsChosen(b, c) && NoAddress(EmailOf(c))
    ensures (o.Delivered? || o.Refused?) ==> !NoAddress(EmailOf(c)) && |o.logged| <= 1
    ensures (o.Delivered? || o.Refused?) ==> forall e :: e in o.logged ==>
      (e.jobTitle == b.jobTitle && e.templateType == b.templateType && e.timestamp == b.now &&
       e.candidateEmail == EmailOf(c))
    ensures o.Delivered? ==> |o.logged| == 1
    ensures o.Refused? ==> (|o.logged| == 1 <==> ComposeFor(b, NameOf(c)).Success?)
  {
    if !IsChosen(b, c) then Skipped
    else if NoAddress(EmailOf(c)) then NoMail
    else
      Attempted(Deliver(ComposeFor(b, NameOf(c)), b.send, b.now, NameOf(c), EmailOf(c), b.jobTitle, b.templateType))
  }

  /** A delivery attempt as an outcome of the loop. */
  function Attempted(a: Attempt): Outcome
  {
    if a.success then Delivered(a.logged) else Refused(a.logged)
  }

  /** The counters, lists and log after one candidate. */
  function Apply(r: BulkResult, log: seq<LogEntry>, c: Candidate, o: Outcome): (BulkResult, seq<LogEntry>)
  {
    match o
    case Skipped => (r, log)
    case NoMail =>
      (r.(totalCandidates := r.totalCandidates + 1, emailsFailed := r.emailsFailed + 1,
          failedTo := r.failedTo + [Missed(NameOf(c), None, NoEmailReason)]), log)
    case Delivered(l) =>
      (r.(totalCandidates := r.totalCandidates + 1, emailsSent := r.emailsSent + 1,
          sentTo := r.sentTo + [Recipient(NameOf(c), EmailOf(c))]), log + l)
    case Refused(l) =>
      (r.(totalCandidates := r.totalCandidates + 1, emailsFailed := r.emailsFailed + 1,
          failedTo := r.failedTo + [Missed(NameOf(c), Some(EmailOf(c)), SmtpReason)]), log + l)
  }

  /** The counters and lists after a send attempt to `c` that `ok` reports. */
  function Counted(r: BulkResult, c: Candidate, ok: bool): BulkResult
  {
    Apply(r, [], c, if ok then Delivered([]) else Refused([])).0
  }

  lemma ApplyAttempt(r: BulkResult, log: seq<LogEntry>, c: Candidate, a: Attempt)
    ensures Apply(r, log, c, Attempted(a)) == (Counted(r, c, a.success), log + a.logged)
  {
  }

  /** The results and log after the given candidates, in order. */
  function Bulk(b: Batch, cs: seq<Candidate>): (r: (BulkResult, seq<LogEntry>))
    decreases |cs|
  {
    if |cs| == 0 then (BulkResult(0, 0, 0, [], [], b.jobTitle), [])
    else
      var prev := Bulk(b, cs[..|cs| - 1]);
      Apply(prev.0, prev.1, cs[|cs| - 1], OutcomeOf(b, cs[|cs| - 1]))
  }

  /** One step of `Bulk`. */
  lemma BulkNext(b: Batch, cs: seq<Candidate>, i: nat)
    requires i < |cs|
    ensures Bulk(b, cs[..i + 1]) == Apply(Bulk(b, cs[..i]).0, Bulk(b, cs[..i]).1, cs[i], OutcomeOf(b, cs[i]))
  {
    assert cs[..i + 1][..i] == cs[..i];
  }

  /** One step keeps the counters in line with the lists. */
  lemma ApplyCounts(r: BulkResult, log: seq<LogEntry>, c: Candidate, o: Outcome)
    requires r.totalCandidates == r.emailsSent + r.emailsFailed
    requires |r.sentTo| == r.emailsSent && |r.failedTo| == r.emailsFailed
    ensures var r' := Apply(r, log, c, o).0;
      r'.totalCandidates == r'.emailsSent + r'.emailsFailed &&
      |r'.sentTo| == r'.emailsSent && |r'.failedTo| == r'.emailsFailed
  {
  }

  /** One step counts the candidate unless it was skipped. */
  lemma ApplyTotal(r: BulkResult, log: seq<LogEntry>, c: Candidate, o: Outcome)
    ensures Apply(r, log, c, o).0.totalCandidates == r.totalCandidates + (if o.Skipped? then 0 else 1)
  {
  }

  predicate SmtpRefused(m: Missed) { m.reason == SmtpReason }

  function NotInShortlists(jobTitle: string): string
  {
    "Job title \"" + jobTitle + "\" not found in shortlists"
  }

  /** The counters agree with the lists. */
  lemma {:induction false} BulkCounts(b: Batch, cs: seq<Candidate>)
    ensures var r := Bulk(b, cs).0;
      r.totalCandidates == r.emailsSent + r.emailsFailed &&
      |r.sentTo| == r.emailsSent && |r.failedTo| == r.emailsFailed
    decreases |cs|
  {
    if |cs| > 0 {
      var init := cs[..|cs| - 1];
      BulkCounts(b, init);
      var p := Bulk(b, init);
      ApplyCounts(p.0, p.1, cs[|cs| - 1], OutcomeOf(b, cs[|cs| - 1]));
    }
  }

  /** Every chosen candidate is counted exactly once, and nobody else. */
  lemma {:induction false} BulkTotal(b: Batch, cs: seq<Candidate>)
    ensures Bulk(b, cs).0.totalCandidates == |Filter(cs, c => IsChosen(b, c))|
    decreases |cs|
  {
    if |cs| > 0 {
      var init := cs[..|cs| - 1];
      var last := cs[|cs| - 1];
      BulkTotal(b, init);
      FilterSnoc(cs, |cs| - 1, c => IsChosen(b, c));
      assert cs[..|cs|] == cs;
      var p := Bulk(b, init);
      ApplyTotal(p.0, p.1, last, OutcomeOf(b, last));
    }
  }

  /** A recipient reported as sent to: chosen, with a usable address. */
  predicate SentOk(b: Batch, x: Recipient)
  {
    Chosen(b.selected, x.name) && !NoAddress(x.email)
  }

  /** A candidate reported as not reached: chosen, and either without an
    * address or refused by the server at a usable one. */
  predicate FailedOk(b: Batch, m: Missed)
  {
    Chosen(b.selected, m.name) &&
    ((m.reason == NoEmailReason && m.email.None?) ||
     (m.reason == SmtpReason && m.email.Some? && !NoAddress(m.email.value)))
  }

  /** A log entry of the batch, to a usable address. */
  predicate LoggedOk(b: Batch, e: LogEntry)
  {
    e.jobTitle == b.jobTitle && e.templateType == b.templateType && e.timestamp == b.now &&
    !NoAddress(e.candidateEmail)
  }

  /** Only chosen candidates with usable addresses are reported as sent to. */
  lemma {:induction false} BulkSentTo(b: Batch, cs: seq<Candidate>)
    ensures forall x :: x in Bulk(b, cs).0.sentTo ==> SentOk(b, x)
    decreases |cs|
  {
    if |cs| > 0 {
      var init, c := cs[..|cs| - 1], cs[|cs| - 1];
      BulkSentTo(b, init);
      var prev := Bulk(b, init);
      var o := OutcomeOf(b, c);
      assert Bulk(b, cs) == Apply(prev.0, prev.1, c, o);
      if o.Delivered? {
        assert SentOk(b, Recipient(NameOf(c), EmailOf(c)));
      }
    }
  }

  /** Only chosen candidates are reported as not reached, and a missing
    * address is never tried. */
  lemma {:induction false} BulkFailedTo(b: Batch, cs: seq<Candidate>)
    ensures forall m :: m in Bulk(b, cs).0.failedTo ==> FailedOk(b, m)
    decreases |cs|
  {
    if |cs| > 0 {
      var init, c := cs[..|cs| - 1], cs[|cs| - 1];
      BulkFailedTo(b, init);
      var prev := Bulk(b, init);
      var o := OutcomeOf(b, c);
      assert Bulk(b, cs) == Apply(prev.0, prev.1, c, o);
      if o.NoMail? {
        assert FailedOk(b, Missed(NameOf(c), None, NoEmailReason));
      } else if o.Refused? {
        assert FailedOk(b, Missed(NameOf(c), Some(EmailOf(c)), SmtpReason));
      }
    }
  }

  /** Every entry the batch logs carries its job, template and time, and a
    * usable address. */
  lemma {:induction false} BulkLogEntries(b: Batch, cs: seq<Candidate>)
    ensures forall e :: e in Bulk(b, cs).1 ==> LoggedOk(b, e)
    decreases |cs|
  {
    if |cs| > 0 {
      var init, c := cs[..|cs| - 1], cs[|cs| - 1];
      BulkLogEntries(b, init);
      var prev := Bulk(b, init);
      var o := OutcomeOf(b, c);
      assert Bulk(b, cs) == Apply(prev.0, prev.1, c, o);
      if o.Delivered? || o.Refused? {
        assert forall e :: e in o.logged ==> LoggedOk(b, e);
      }
    }
  }

  /** The result is reported under the batch's job title. */
  lemma {:induction false} BulkJobTitle(b: Batch, cs: seq<Candidate>)
    ensures Bulk(b, cs).0.jobTitle == b.jobTitle
    decreases |cs|
  {
    if |cs| > 0 {
      BulkJobTitle(b, cs[..|cs| - 1]);
    }
  }

  /** When the template composes for everyone, every usable address is
    * tried and logged once: the log grows by the messages sent plus those
    * the server refused. */
  lemma {:induction false} BulkLogged(b: Batch, cs: seq<Candidate>)
    requires forall name :: ComposeFor(b, name).Success?
    ensures |Bulk(b, cs).1| == Bulk(b, cs).0.emailsSent + |Filter(Bulk(b, cs).0.failedTo, SmtpRefused)|
    decreases |cs|
  {
    if |cs| > 0 {
      var init := cs[..|cs| - 1];
      var c := cs[|cs| - 1];
      BulkLogged(b, init);
      var p := Bulk(b, init);
      var o := OutcomeOf(b, c);
      match o
      case Skipped =>
      case NoMail =>
        FilterAppend(p.0.failedTo, [Missed(NameOf(c), None, NoEmailReason)], SmtpRefused);
      case Delivered(_) =>
      case Refused(_) =>
        FilterAppend(p.0.failedTo, [Missed(NameOf(c), Some(EmailOf(c)), SmtpReason)], SmtpRefused);
    }
  }

  // ---------------------------------------------------------------- preview

  const PreviewHeader := "=== EMAIL PREVIEW ==="
  const PreviewFooter := "=== END PREVIEW ==="
  const PreviewFailurePrefix := "Error generating preview: "

  /** `str(e)` of what composing raised. */
  function ErrorText(e: SendError): string
  {
    match e
    case NoTemplate(m) => m
    case KeyMissing(k) => Quote(k)
    case BadFormat => ""
  }

  function PreviewBody(candidateName: string, m: Message): string
  {
    PreviewHeader + "\nTo: " + candidateName + "\nSubject: " + m.subject + "\n\n" + m.body + "\n" + PreviewFooter
  }

  /** `preview_email`: never raises; an error becomes a message. */
  function PreviewEmail(lookup: TemplateLookup, s: Settings, candidateName: string, jobTitle: string, templateType: string)
    : (r: string)
    ensures Compose(lookup, s, templateType, candidateName, jobTitle).Failure? ==>
      r == PreviewFailurePrefix + ErrorText(Compose(lookup, s, templateType, candidateName, jobTitle).error)
    ensures Compose(lookup, s, templateType, candidateName, jobTitle).Success? ==>
      r == PreviewBody(candidateName, Compose(lookup, s, templateType, candidateName, jobTitle).value)
  {
    match Compose(lookup, s, templateType, candidateName, jobTitle)
    case Failure(e) => PreviewFailurePrefix + ErrorText(e)
    case Success(m) =>
      var inner := PreviewBody(candidateName, m);
      PreviewStripped(candidateName, m);
      Strip("\n" + inner + "\n            ")
  }

  /** The preview text opens and closes with its banners, so stripping the
    * surrounding line breaks and indentation leaves it whole. */
  lemma PreviewStripped(candidateName: string, m: Message)
    ensures Strip("\n" + PreviewBody(candidateName, m) + "\n            ") == PreviewBody(candidateName, m)
    ensures StartsWith(PreviewBody(candidateName, m), PreviewHeader)
    ensures EndsWith(PreviewBody(candidateName, m), PreviewFooter)
  {
    var inner := PreviewBody(candidateName, m);
    var mid := "\nTo: " + candidateName + "\nSubject: " + m.subject + "\n\n" + m.body + "\n";
    assert inner == PreviewHeader + mid + PreviewFooter;
    assert inner[0] == '=' && inner[|inner| - 1] == '=';
    assert inner[..|PreviewHeader|] == PreviewHeader;
    assert inner[|inner| - |PreviewFooter|..] == PreviewFooter;
    assert AllSpace("\n") && AllSpace("\n            ");
    StripPadded("\n", inner, "\n            ");
  }

  // ---------------------------------------------------------------- manager

  /** `EnhancedEmailManager`: the configuration it reads templates and
    * company details from, and the log it appends to. */
  class EmailManager {
    const settings: Settings
    const lookup: TemplateLookup
    var emailLog: seq<LogEntry>

    constructor (settings: Settings)
      ensures this.settings == settings && lookup == GetEmailTemplate && emailLog == []
    {
      this.settings := settings;
      lookup := GetEmailTemplate;
      emailLog := [];
    }

    /** `send_manual_email`: composes, sends through `send`, and logs the
      * attempt; any exception while composing gives false and no entry. */
    method SendManualEmail(candidateName: string, candidateEmail: string, jobTitle: string, templateType: string,
                           now: string, send: Sender) returns (success: bool)
      modifies this
      ensures success == ManualAttempt(lookup, settings, send, now, candidateName, candidateEmail, jobTitle, templateType).success
      ensures emailLog == old(emailLog) +
        ManualAttempt(lookup, settings, send, now, candidateName, candidateEmail, jobTitle, templateType).logged
    {
      var composed := Compose(lookup, settings, templateType, candidateName, jobTitle);
      if composed.Failure? {
        return false;
      }
      var subject := composed.value.subject;
      success := send(candidateEmail, subject, composed.value.body);
      emailLog := emailLog + [LogEntry(now, candidateName, candidateEmail, jobTitle, templateType, success, subject)];
    }

    /** One candidate of the bulk loop: skipped unless selected, failed
      * without an address, otherwise sent as a manual email. */
    method BulkStep(b: Batch, c: Candidate, res: BulkResult, ghost added: seq<LogEntry>, ghost log0: seq<LogEntry>)
      returns (res': BulkResult, ghost added': seq<LogEntry>)
      requires b.lookup == lookup && b.settings == settings
      requires emailLog == log0 + added
      modifies this
      ensures res' == Apply(res, added, c, OutcomeOf(b, c)).0
      ensures added' == Apply(res, added, c, OutcomeOf(b, c)).1
      ensures emailLog == log0 + added'
    {
      if !Chosen(b.selected, NameOf(c)) {
        res', added' := res, added;
      } else if NoAddress(EmailOf(c)) {
        assert OutcomeOf(b, c) == NoMail;
        res', added' := NoMailStep(c, res, added, log0);
      } else {
        assert OutcomeOf(b, c) ==
          Attempted(ManualAttempt(lookup, settings, b.send, b.now, NameOf(c), EmailOf(c), b.jobTitle, b.templateType));
        res', added' := MailStep(b, c, res, added, log0);
      }
    }

    /** The bulk loop on a selected candidate without an address. */
    method NoMailStep(c: Candidate, res: BulkResult, ghost added: seq<LogEntry>, ghost log0: seq<LogEntry>)
      returns (res': BulkResult, ghost added': seq<LogEntry>)
      requires emailLog == log0 + added
      ensures res' == Apply(res, added, c, NoMail).0
      ensures added' == Apply(res, added, c, NoMail).1
      ensures emailLog == log0 + added'
    {
      res' := res.(totalCandidates := res.totalCandidates + 1, emailsFailed := res.emailsFailed + 1,
                   failedTo := res.failedTo + [Missed(NameOf(c), None, NoEmailReason)]);
      added' := added;
    }

    /** The bulk loop on a selected candidate with an address. */
    method MailStep(b: Batch, c: Candidate, res: BulkResult, ghost added: seq<LogEntry>, ghost log0: seq<LogEntry>)
      returns (res': BulkResult, ghost added': seq<LogEntry>)
      requires emailLog == log0 + added
      modifies this
      ensures var o := Attempted(ManualAttempt(lookup, settings, b.send, b.now, NameOf(c), EmailOf(c), b.jobTitle, b.templateType));
        res' == Apply(res, added, c, o).0 && added' == Apply(res, added, c, o).1
      ensures emailLog == log0 + added'
    {
      var name := NameOf(c);
      var email := EmailOf(c);
      ghost var a := ManualAttempt(lookup, settings, b.send, b.now, name, email, b.jobTitle, b.templateType);
      AppendAssoc(log0, added, a.logged);
      var ok := SendManualEmail(name, email, b.jobTitle, b.templateType, b.now, b.send);
      ApplyAttempt(res, added, c, a);
      res' := Counted(res, c, ok);
      added' := added + a.logged;
    }

    /** `send_bulk_emails_to_job_candidates`. */
    method SendBulkEmails(shortlists: map<string, seq<Candidate>>, jobTitle: string, selected: seq<string>,
                          templateType: string, now: string, send: Sender)
      returns (r: Result<BulkResult, string>)
      modifies this
      ensures jobTitle !in shortlists ==> r == Failure(NotInShortlists(jobTitle)) && emailLog == old(emailLog)
      ensures jobTitle in shortlists ==>
        var out := Bulk(Batch(lookup, settings, send, now, jobTitle, templateType, selected), shortlists[jobTitle]);
        r == Success(out.0) && emailLog == old(emailLog) + out.1
    {
      if jobTitle !in shortlists {
        return Failure(NotInShortlists(jobTitle));
      }
      var b := Batch(lookup, settings, send, now, jobTitle, templateType, selected);
      var cs := shortlists[jobTitle];
      var res := BulkResult(0, 0, 0, [], [], jobTitle);
      ghost var added: seq<LogEntry> := [];
      var i := 0;
      while i < |cs|
        invariant 0 <= i <= |cs|
        invariant (res, added) == Bulk(b, cs[..i])
        invariant emailLog == old(emailLog) + added
      {
        BulkNext(b, cs, i);
        res, added := BulkStep(b, cs[i], res, added, old(emailLog));
        i := i + 1;
      }
      assert cs[..|cs|] == cs;
      r := Success(res);
    }
  }
}
