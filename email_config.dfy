/** The email templates the HR automation ships with (`EMAIL_TEMPLATES`) and
  * their lookup by name. Each template's subject and body are kept as
  * `Formatting` pieces; `Source` gives the stored text. */
module EmailConfig {
  import opened Wrappers
  import opened Text
  import opened Seqs
  import opened Formatting

  // ---------------------------------------------------- variable names

  const CandidateName := "candidate_name"
  const JobTitle := "job_title"
  const ExperienceYears := "experience_years"
  const Skills := "skills"
  const CompanyName := "company_name"
  const CompanyWebsite := "company_website"
  const SenderName := "sender_name"
  const HrContactName := "hr_contact_name"
  const HrContactEmail := "hr_contact_email"
  const HrContactPhone := "hr_contact_phone"

  /** The company and HR-contact part of `EmailConfig`; the deployment
    * supplies the values. */
  datatype Settings = Settings(
    companyName: string, companyWebsite: string, senderName: string,
    hrContactName: string, hrContactEmail: string, hrContactPhone: string)

  datatype Template = Template(subject: seq<Piece>, body: seq<Piece>)
  {
    /** The stored subject line, with its `{name}` fields. */
    function SubjectText(): string { Source(subject) }

    /** The stored body. */
    function BodyText(): string { Source(body) }

    /** Every field name the subject or body uses. */
    function Placeholders(): seq<string> { Fields(subject) + Fields(body) }
  }

  // -------------------------------------------------------- templates

  /** The keys of `EMAIL_TEMPLATES`. */
  datatype TemplateId = RecruitmentInterest | InterviewInvitation | FollowUp

  /** The keys in insertion order. */
  const Catalogue: seq<TemplateId> := [RecruitmentInterest, InterviewInvitation, FollowUp]

  function Name(id: TemplateId): string
  {
    match id
    case RecruitmentInterest => "recruitment_interest"
    case InterviewInvitation => "interview_invitation"
    case FollowUp => "follow_up"
  }

  function TemplateOf(id: TemplateId): Template
  {
    match id
    case RecruitmentInterest => RecruitmentInterestTemplate
    case InterviewInvitation => InterviewInvitationTemplate
    case FollowUp => FollowUpTemplate
  }

  const RecruitmentInterestText1 := "Exciting Opportunity at "
  const RecruitmentInterestText2 := " - We're Interested in Your Profile!"
  const RecruitmentInterestText3 := "Dear "
  const RecruitmentInterestText4 := ",\n\n"
    + "I hope this email finds you well.\n\n"
    + "We have been through your profile, and I'm pleased to inform you that your "
    + "profile is well-suited for exciting opportunities we currently have at "
  const RecruitmentInterestText5 := ".\n\n"
    + "Your background in "
  const RecruitmentInterestText6 := " with "
  const RecruitmentInterestText7 := " of experience, particularly your expertise in "
  const RecruitmentInterestText8 := ", aligns perfectly with what we're looking for in our growing team.\n\n"
    + "We would love to discuss how your talents could contribute to our innovative "
    + "projects and help drive our company's success. Our team is always looking for "
    + "passionate professionals who can make a meaningful impact.\n\n"
    + "If you're interested in exploring new career opportunities, I'd be delighted to "
    + "schedule a brief call to discuss:\n"
    + "\U{2022} The exciting projects you would be working on\n"
    + "\U{2022} Our competitive compensation and benefits package\n"
    + "\U{2022} Our collaborative and innovative work environment\n"
    + "\U{2022} Growth opportunities within our organization\n\n"
    + "Please feel free to reply to this email or contact me directly at "
  const RecruitmentInterestText9 := " or "
  const RecruitmentInterestText10 := " if you'd like to learn more.\n\n"
    + "We look forward to the possibility of welcoming you to our team!\n\n"
    + "Best regards,\n\n"
  const RecruitmentInterestText11 := "\n"
  const RecruitmentInterestText12 := "\n"
    + "Talent Acquisition Team\n"
    + "Email: "
  const RecruitmentInterestText13 := "\n"
    + "Phone: "
  const RecruitmentInterestText14 := "\n"
    + "Website: "
  const RecruitmentInterestText15 := "\n\n"
    + "P.S. We believe in creating an inclusive workplace where everyone can thrive. "
    + "We'd love to hear about your career aspirations and how we can support your "
    + "professional growth."

  const RecruitmentInterestSubjectTexts := [
    RecruitmentInterestText1, RecruitmentInterestText2]
  const RecruitmentInterestBodyTexts := [
    RecruitmentInterestText3, RecruitmentInterestText4, RecruitmentInterestText5,
    RecruitmentInterestText6, RecruitmentInterestText7, RecruitmentInterestText8,
    RecruitmentInterestText9, RecruitmentInterestText10, RecruitmentInterestText11,
    RecruitmentInterestText12, RecruitmentInterestText13, RecruitmentInterestText14,
    RecruitmentInterestText15]
  const RecruitmentInterestSubjectFields := [CompanyName]
  const RecruitmentInterestBodyFields := [
    CandidateName, CompanyName, JobTitle, ExperienceYears, Skills, HrContactEmail,
    HrContactPhone, SenderName, CompanyName, HrContactEmail, HrContactPhone,
    CompanyWebsite]
  const RecruitmentInterestTemplate := Template(
    Interleave(RecruitmentInterestSubjectTexts, RecruitmentInterestSubjectFields),
    Interleave(RecruitmentInterestBodyTexts, RecruitmentInterestBodyFields))

  const InterviewInvitationText1 := "Interview Invitation - "
  const InterviewInvitationText2 := " Position at "
  const InterviewInvitationText3 := "Dear "
  const InterviewInvitationText4 := ",\n\n"
    + "Thank you for your interest in the "
  const InterviewInvitationText5 := " position at "
  const InterviewInvitationText6 := ". After reviewing your profile and background, we are impressed with your "
    + "qualifications and would like to invite you for a telephonic interview.\n\n"
    + "Interview Details:\n"
    + "\U{2022} Position: "
  const InterviewInvitationText7 := "\n"
    + "\U{2022} Interview Type: Telephonic Discussion\n"
    + "\U{2022} Duration: Approximately 30-45 minutes\n\n"
    + "We will discuss:\n"
    + "\U{2022} Your professional background and experience\n"
    + "\U{2022} The role and responsibilities\n"
    + "\U{2022} Our company culture and values\n"
    + "\U{2022} Next steps in the process\n\n"
    + "Please reply to this email with your availability for the next few days, and we "
    + "will coordinate a suitable time for both of us.\n\n"
    + "If you have any questions before the interview, please don't hesitate to reach "
    + "out.\n\n"
    + "Looking forward to speaking with you soon!\n\n"
    + "Best regards,\n\n"
  const InterviewInvitationText8 := "\n"
  const InterviewInvitationText9 := "\n"
    + "Talent Acquisition Team\n"
    + "Email: "
  const InterviewInvitationText10 := "\n"
    + "Phone: "
  const InterviewInvitationText11 := "\n"
    + "Website: "

  const InterviewInvitationSubjectTexts := [
    InterviewInvitationText1, InterviewInvitationText2, ""]
  const InterviewInvitationBodyTexts := [
    InterviewInvitationText3, InterviewInvitationText4, InterviewInvitationText5,
    InterviewInvitationText6, InterviewInvitationText7, InterviewInvitationText8,
    InterviewInvitationText9, InterviewInvitationText10, InterviewInvitationText11, ""]
  const InterviewInvitationSubjectFields := [JobTitle, CompanyName]
  const InterviewInvitationBodyFields := [
    CandidateName, JobTitle, CompanyName, JobTitle, SenderName, CompanyName,
    HrContactEmail, HrContactPhone, CompanyWebsite]
  const InterviewInvitationTemplate := Template(
    Interleave(InterviewInvitationSubjectTexts, InterviewInvitationSubjectFields),
    Interleave(InterviewInvitationBodyTexts, InterviewInvitationBodyFields))

  const FollowUpText1 := "Following up - "
  const FollowUpText2 := " Opportunity at "
  const FollowUpText3 := "Dear "
  const FollowUpText4 := ",\n\n"
    + "I hope this email finds you well. I wanted to follow up on our previous "
    + "communication regarding the "
  const FollowUpText5 := " opportunity at "
  const FollowUpText6 := ".\n\n"
    + "We remain very interested in your profile and would love to hear from you if "
    + "you're still considering new career opportunities.\n\n"
    + "If now is not the right time, we completely understand. However, if you're "
    + "interested in learning more about this exciting opportunity, please feel free "
    + "to reach out at your convenience.\n\n"
    + "We believe your skills in "
  const FollowUpText7 := " would be a great addition to our team, and we'd be happy to discuss how this "
    + "role could align with your career goals.\n\n"
    + "Thank you for your time, and I look forward to hearing from you.\n\n"
    + "Best regards,\n\n"
  const FollowUpText8 := "\n"
  const FollowUpText9 := "\n"
    + "Talent Acquisition Team\n"
    + "Email: "
  const FollowUpText10 := "\n"
    + "Phone: "

  const FollowUpSubjectTexts := [
    FollowUpText1, FollowUpText2, ""]
  const FollowUpBodyTexts := [
    FollowUpText3, FollowUpText4, FollowUpText5, FollowUpText6, FollowUpText7,
    FollowUpText8, FollowUpText9, FollowUpText10, ""]
  const FollowUpSubjectFields := [JobTitle, CompanyName]
  const FollowUpBodyFields := [
    CandidateName, JobTitle, CompanyName, Skills, SenderName, CompanyName,
    HrContactEmail, HrContactPhone]
  const FollowUpTemplate := Template(
    Interleave(FollowUpSubjectTexts, FollowUpSubjectFields),
    Interleave(FollowUpBodyTexts, FollowUpBodyFields))

  /** The first of `ids` named `name`. */
  function Lookup(ids: seq<TemplateId>, name: string): (r: Option<TemplateId>)
    ensures r.Some? <==> name in Map(ids, Name)
    ensures r.Some? ==> r.value in ids && Name(r.value) == name
  {
    if |ids| == 0 then None
    else if Name(ids[0]) == name then Some(ids[0])
    else
      assert Map(ids, Name) == [Name(ids[0])] + Map(ids[1..], Name);
      Lookup(ids[1..], name)
  }

  /** `get_available_templates`: `list(EMAIL_TEMPLATES.keys())`. */
  function GetAvailableTemplates(): (r: seq<string>)
    ensures |r| == |Catalogue|
    ensures forall i :: 0 <= i < |r| ==> r[i] == Name(Catalogue[i])
  {
    Map(Catalogue, Name)
  }

  /** Python's `repr` of a string with no quote or backslash in it. */
  function Quote(s: string): string { "'" + s + "'" }

  /** Python's `str` of a list of such strings. */
  function ListRepr(xs: seq<string>): string
  {
    "[" + Join(Map(xs, Quote), ", ") + "]"
  }

  function NotFound(name: string): string
  {
    "Template " + Quote(name) + " not found. Available templates: " + ListRepr(GetAvailableTemplates())
  }

  /** A template lookup by name: `get_email_template`, or the same
    * function of another configuration module. */
  type TemplateLookup = string -> Result<Template, string>

  /** `get_email_template`: the template stored under `name`, or the
    * `ValueError` naming the available templates. */
  function GetEmailTemplate(name: string): (r: Result<Template, string>)
    ensures r.Success? <==> name in GetAvailableTemplates()
    ensures r.Success? ==> exists id :: id in Catalogue && Name(id) == name && r.value == TemplateOf(id)
    ensures r.Failure? ==> r.error == NotFound(name)
  {
    match Lookup(Catalogue, name)
    case Some(id) => Success(TemplateOf(id))
    case None => Failure(NotFound(name))
  }

  // ------------------------------------------------------------ lemmas

  /** The templates are offered in the order they are declared. */
  lemma AvailableTemplates()
    ensures GetAvailableTemplates() == ["recruitment_interest", "interview_invitation", "follow_up"]
  {
    assert Catalogue[0] == RecruitmentInterest && Catalogue[1] == InterviewInvitation && Catalogue[2] == FollowUp;
  }

  /** Each built-in template is found under its own name. */
  lemma BuiltinLookup(id: TemplateId)
    ensures GetEmailTemplate(Name(id)) == Success(TemplateOf(id))
  {
    LookupName(id);
  }

  /** The names are distinct, so each one finds its own key. */
  lemma LookupName(id: TemplateId)
    ensures Lookup(Catalogue, Name(id)) == Some(id)
  {
    assert Name(RecruitmentInterest)[0] == 'r';
    assert Name(InterviewInvitation)[0] == 'i';
    assert Name(FollowUp)[0] == 'f';
  }

  /** A piece of a joined list is found in the joined text. */
  lemma {:induction false} JoinOccurs(parts: seq<string>, sep: string, k: nat) returns (i: nat)
    requires k < |parts|
    ensures OccursAt(Join(parts, sep), parts[k], i)
    decreases |parts|
  {
    var s := Join(parts, sep);
    if |parts| == 1 {
      i := 0;
      assert s == parts[0];
      assert s[..|parts[0]|] == parts[0];
    } else if k == 0 {
      i := 0;
      assert s == parts[0] + (sep + Join(parts[1..], sep));
      assert s[..|parts[0]|] == parts[0];
    } else {
      var j := JoinOccurs(parts[1..], sep, k - 1);
      var pre := parts[0] + sep;
      assert s == pre + Join(parts[1..], sep);
      i := |pre| + j;
      assert s[i..i + |parts[k]|] == Join(parts[1..], sep)[j..j + |parts[k]|];
    }
  }

  /** The list text quotes every element. */
  lemma ListReprHas(xs: seq<string>, k: nat) returns (i: nat)
    requires k < |xs|
    ensures OccursAt(ListRepr(xs), Quote(xs[k]), i)
  {
    var qs := Map(xs, Quote);
    var j := JoinOccurs(qs, ", ", k);
    var s := ListRepr(xs);
    assert s == "[" + Join(qs, ", ") + "]";
    assert s[1 + j..1 + j + |qs[k]|] == Join(qs, ", ")[j..j + |qs[k]|];
    i := 1 + j;
  }

  /** The error for an unknown name lists every available template. */
  lemma NotFoundListsAll(name: string, k: nat)
    requires k < |GetAvailableTemplates()|
    ensures Contains(NotFound(name), Quote(GetAvailableTemplates()[k]))
  {
    var names := GetAvailableTemplates();
    var i := ListReprHas(names, k);
    var pre := "Template " + Quote(name) + " not found. Available templates: ";
    var l := ListRepr(names);
    var q := Quote(names[k]);
    assert (pre + l)[|pre| + i..|pre| + i + |q|] == l[i..i + |q|];
    ContainsAt(pre + l, q, |pre| + i);
  }

  /** The field names the built-in templates draw on. */
  const Variables: set<string> := {
    CandidateName, JobTitle, ExperienceYears, Skills, CompanyName,
    CompanyWebsite, SenderName, HrContactName, HrContactEmail, HrContactPhone}

  /** Every built-in template uses only keyword fields, all of them among
    * `Variables`, so its stored text formats exactly as its pieces fill. */
  lemma CatalogueWellFormed(id: TemplateId)
    ensures WellFormed(TemplateOf(id).subject) && WellFormed(TemplateOf(id).body)
    ensures forall n :: n in TemplateOf(id).Placeholders() ==> n in Variables
  {
    VariablesAreNames();
    match id
    case RecruitmentInterest =>
      RecruitmentInterestFields();
      InterleaveWellFormed(RecruitmentInterestSubjectTexts, RecruitmentInterestSubjectFields);
      InterleaveWellFormed(RecruitmentInterestBodyTexts, RecruitmentInterestBodyFields);
    case InterviewInvitation =>
      InterviewInvitationFields();
      InterleaveWellFormed(InterviewInvitationSubjectTexts, InterviewInvitationSubjectFields);
      InterleaveWellFormed(InterviewInvitationBodyTexts, InterviewInvitationBodyFields);
    case FollowUp =>
      FollowUpFields();
      InterleaveWellFormed(FollowUpSubjectTexts, FollowUpSubjectFields);
      InterleaveWellFormed(FollowUpBodyTexts, FollowUpBodyFields);
  }

  lemma RecruitmentInterestFields()
    ensures forall n :: n in RecruitmentInterestSubjectFields + RecruitmentInterestBodyFields ==> n in Variables
  {
  }

  lemma InterviewInvitationFields()
    ensures forall n :: n in InterviewInvitationSubjectFields + InterviewInvitationBodyFields ==> n in Variables
  {
  }

  lemma FollowUpFields()
    ensures forall n :: n in FollowUpSubjectFields + FollowUpBodyFields ==> n in Variables
  {
  }

  lemma VariablesAreNames()
    ensures forall n :: n in Variables ==> IsName(n)
  {
    FieldNames();
  }

  lemma FieldNames()
    ensures IsName(CandidateName) && IsName(JobTitle) && IsName(ExperienceYears) && IsName(Skills)
    ensures IsName(CompanyName) && IsName(CompanyWebsite) && IsName(SenderName)
    ensures IsName(HrContactName) && IsName(HrContactEmail) && IsName(HrContactPhone)
  {
    CandidateNameIsName();
    JobTitleIsName();
    ExperienceYearsIsName();
    SkillsIsName();
    CompanyNameIsName();
    CompanyWebsiteIsName();
    SenderNameIsName();
    HrContactNameIsName();
    HrContactEmailIsName();
    HrContactPhoneIsName();
  }

  lemma CandidateNameIsName() ensures IsName(CandidateName) { assert !IsDigit(CandidateName[0]); }
  lemma JobTitleIsName() ensures IsName(JobTitle) { assert !IsDigit(JobTitle[0]); }
  lemma ExperienceYearsIsName() ensures IsName(ExperienceYears) { assert !IsDigit(ExperienceYears[0]); }
  lemma SkillsIsName() ensures IsName(Skills) { assert !IsDigit(Skills[0]); }
  lemma CompanyNameIsName() ensures IsName(CompanyName) { assert !IsDigit(CompanyName[0]); }
  lemma CompanyWebsiteIsName() ensures IsName(CompanyWebsite) { assert !IsDigit(CompanyWebsite[0]); }
  lemma SenderNameIsName() ensures IsName(SenderName) { assert !IsDigit(SenderName[0]); }
  lemma HrContactNameIsName() ensures IsName(HrContactName) { assert !IsDigit(HrContactName[0]); }
  lemma HrContactEmailIsName() ensures IsName(HrContactEmail) { assert !IsDigit(HrContactEmail[0]); }
  lemma HrContactPhoneIsName() ensures IsName(HrContactPhone) { assert !IsDigit(HrContactPhone[0]); }
}
