/** The template renderer and personaliser: candidate records, rendering a
  * named template with the company and candidate variables, tidying the
  * body, checking a template's variables, and the in-place clean-up of a
  * candidate before rendering. */
module EmailTemplates {
  import opened Wrappers
  import opened Text
  import opened Seqs
  import opened Sorting
  import opened Formatting
  import opened EmailConfig

  // ----------------------------------------------------------- candidates

  const CandidateEmail := "candidate_email"
  const Location := "location"

  /** The variables a candidate record supplies. */
  const CandidateKeys: set<string> := {CandidateName, CandidateEmail, JobTitle, ExperienceYears, Skills, Location}

  /** The variables the company settings supply. */
  const CompanyKeys: set<string> := {CompanyName, CompanyWebsite, HrContactName, HrContactEmail, HrContactPhone, SenderName}

  /** `CandidateData`: a mutable record, cleaned up in place by the personaliser. */
  class CandidateData {
    var name: string
    var email: string
    var jobTitle: string
    var experienceYears: string
    var skills: string
    var location: string

    constructor (name: string, email: string, jobTitle: string, experienceYears: string, skills: string, location: string)
      ensures this.name == name && this.email == email && this.jobTitle == jobTitle
      ensures this.experienceYears == experienceYears && this.skills == skills && this.location == location
    {
      this.name := name;
      this.email := email;
      this.jobTitle := jobTitle;
      this.experienceYears := experienceYears;
      this.skills := skills;
      this.location := location;
    }

    /** `to_dict`: the record under its six template-variable names. */
    function ToDict(): (d: map<string, string>)
      reads this
      ensures d.Keys == CandidateKeys
      ensures d[CandidateName] == name && d[JobTitle] == jobTitle
    {
      map[CandidateName := name, CandidateEmail := email, JobTitle := jobTitle,
          ExperienceYears := experienceYears, Skills := skills, Location := location]
    }
  }

  /** The renderer's `company_vars`. */
  function CompanyVars(s: Settings): (d: map<string, string>)
    ensures d.Keys == CompanyKeys
  {
    map[CompanyName := s.companyName, CompanyWebsite := s.companyWebsite,
        HrContactName := s.hrContactName, HrContactEmail := s.hrContactEmail,
        HrContactPhone := s.hrContactPhone, SenderName := s.senderName]
  }

  /** `{**company_vars, **candidate.to_dict()}`: the candidate's values win. */
  function TemplateVars(s: Settings, c: CandidateData): (d: map<string, string>)
    reads c
    ensures d.Keys == CompanyKeys + CandidateKeys
    ensures forall k :: k in CandidateKeys ==> d[k] == c.ToDict()[k]
    ensures forall k :: k in CompanyKeys && k !in CandidateKeys ==> d[k] == CompanyVars(s)[k]
  {
    CompanyVars(s) + c.ToDict()
  }

  /** Every variable the built-in templates draw on is supplied. */
  lemma VariablesSupplied()
    ensures Variables <= CompanyKeys + CandidateKeys
  {
  }

  // ------------------------------------------------------------ rendering

  datatype Email = Email(subject: string, body: string)

  /** What `render_email` raises: the lookup's `ValueError`, the
    * `ValueError` wrapping a `KeyError`, or a malformed format string. */
  datatype RenderError = NoTemplate(message: string) | MissingVariable(key: string) | BadFormat

  /** The text of the `ValueError` that replaces a `KeyError`. */
  function MissingMessage(key: string): string
  {
    "Missing template variable: " + Quote(key)
  }

  function Raised(e: FormatError): RenderError
  {
    match e
    case KeyError(k) => MissingVariable(k)
    case Unsupported => BadFormat
  }

  /** Formats the subject, then the body, and tidies the body. */
  function Render(t: Template, vars: map<string, string>): (r: Result<Email, RenderError>)
    ensures r.Failure? ==> !r.error.NoTemplate?
  {
    match Format(t.SubjectText(), vars)
    case Failure(e) => Failure(Raised(e))
    case Success(subject) =>
      match Format(t.BodyText(), vars)
      case Failure(e) => Failure(Raised(e))
      case Success(body) => Success(Email(subject, CleanEmailBody(body)))
  }

  /** `render_email`: the lookup's error passes through unchanged. */
  function RenderEmail(c: CandidateData, templateName: string, s: Settings, lookup: TemplateLookup): (r: Result<Email, RenderError>)
    reads c
    ensures r.Failure? && r.error.NoTemplate? <==> lookup(templateName).Failure?
    ensures r.Failure? && r.error.NoTemplate? ==> r.error.message == lookup(templateName).error
  {
    match lookup(templateName)
    case Failure(m) => Failure(NoTemplate(m))
    case Success(t) => Render(t, TemplateVars(s, c))
  }

  /** For a template of keyword fields, rendering succeeds exactly when every
    * placeholder has a value, the failure names a placeholder without one,
    * and no brace is left unfilled. */
  lemma RenderWellFormed(t: Template, vars: map<string, string>)
    requires WellFormed(t.subject) && WellFormed(t.body)
    ensures Render(t, vars).Success? <==> forall n :: n in t.Placeholders() ==> n in vars
    ensures Render(t, vars).Failure? ==>
      Render(t, vars).error.MissingVariable? && Render(t, vars).error.key in t.Placeholders() &&
      Render(t, vars).error.key !in vars
    ensures Render(t, vars).Success? ==>
      Fill(t.subject, vars).Success? && Fill(t.body, vars).Success? &&
      Render(t, vars).value == Email(Fill(t.subject, vars).value, CleanEmailBody(Fill(t.body, vars).value))
  {
    FormatSource(t.subject, vars);
    FormatSource(t.body, vars);
    FillIff(t.subject, vars);
    FillIff(t.body, vars);
  }

  /** Any missing variable is one the template's text names, when every
    * field name is listed whatever follows it. */
  lemma RenderMissingListed(t: Template, vars: map<string, string>)
    requires Render(t, vars).Failure? && Render(t, vars).error.MissingVariable?
    ensures Render(t, vars).error.key in TextFields(t, false)
    ensures Render(t, vars).error.key !in vars
  {
    if Format(t.SubjectText(), vars).Failure? {
      MissingKeyListed(t.SubjectText(), vars);
    } else {
      MissingKeyListed(t.BodyText(), vars);
    }
  }

  /** With the built-in catalogue, every template renders for any candidate
    * and settings. */
  lemma RenderBuiltin(c: CandidateData, id: TemplateId, s: Settings)
    ensures RenderEmail(c, Name(id), s, GetEmailTemplate).Success?
  {
    BuiltinLookup(id);
    CatalogueWellFormed(id);
    RenderWellFormed(TemplateOf(id), TemplateVars(s, c));
  }

  // ------------------------------------------------------------- clean-up

  /** Length of the whitespace run that opens `s`. */
  function SpaceRun(s: string): (k: nat)
    ensures k <= |s| && AllSpace(s[..k])
    ensures k < |s| ==> !IsSpace(s[k])
  {
    if |s| == 0 || !IsSpace(s[0]) then 0
    else
      var k := 1 + SpaceRun(s[1..]);
      assert s[..k] == [s[0]] + s[1..][..k - 1];
      k
  }

  /** The number of line breaks in `s`. */
  function Breaks(s: string): nat
  {
    if |s| == 0 then 0 else (if s[0] == '\n' then 1 else 0) + Breaks(s[1..])
  }

  /** One past the last line break of `s`, or 0 when there is none. */
  function LastBreakEnd(s: string): (e: nat)
    ensures e <= |s|
    ensures Breaks(s[e..]) == 0
    ensures Breaks(s) > 0 ==> e > 0
  {
    if |s| == 0 then 0
    else if s[|s| - 1] == '\n' then |s|
    else
      var init := s[..|s| - 1];
      var e := LastBreakEnd(init);
      assert s[e..] == init[e..] + [s[|s| - 1]];
      BreaksAppend(init[e..], [s[|s| - 1]]);
      assert s == init + [s[|s| - 1]];
      BreaksAppend(init, [s[|s| - 1]]);
      e
  }

  lemma {:induction false} BreaksAppend(a: string, b: string)
    ensures Breaks(a + b) == Breaks(a) + Breaks(b)
    decreases |a|
  {
    if |a| > 0 {
      assert (a + b)[1..] == a[1..] + b;
      BreaksAppend(a[1..], b);
    } else {
      assert a + b == b;
    }
  }

  /** A line break followed by whitespace that holds two more line breaks:
    * where `\n\s*\n\s*\n` matches. */
  predicate Excess(s: string)
  {
    |s| > 0 && s[0] == '\n' && Breaks(Run(s[1..])) >= 2
  }

  /** The whitespace run that opens `s`. */
  function Run(s: string): (w: string)
    ensures AllSpace(w) && StartsWith(s, w)
  {
    s[..SpaceRun(s)]
  }

  /** `re.sub(r'\n\s*\n\s*\n', '\n\n', s)`: scanning left to right, each
    * match runs from a line break to the last line break of the whitespace
    * after it (greedy `\s*`) and becomes two line breaks. */
  function Collapse(s: string): (r: string)
    ensures |r| <= |s|
    decreases |s|
  {
    if |s| == 0 then ""
    else if Excess(s) then
      "\n\n" + Collapse(s[1 + LastBreakEnd(Run(s[1..]))..])
    else [s[0]] + Collapse(s[1..])
  }

  /** No line break is followed by whitespace holding two more. */
  predicate Tidy(s: string)
  {
    forall i :: 0 <= i < |s| ==> !Excess(s[i..])
  }

  /** `_clean_email_body`: collapse blank-line runs, turn CR LF and lone CR
    * into LF, strip the ends. */
  function CleanEmailBody(body: string): (r: string)
    ensures '\r' !in r
    ensures IsStripped(r)
  {
    var lf := ReplaceChar(Replace(Collapse(body), "\r\n", "\n"), '\r', '\n');
    var r := Strip(lf);
    StripChars(lf);
    r
  }

  /** Collapsing leaves a tidy text alone. */
  lemma {:induction false} CollapseTidy(s: string)
    requires Tidy(s)
    ensures Collapse(s) == s
    decreases |s|
  {
    if |s| > 0 {
      assert !Excess(s[0..]);
      assert s[0..] == s;
      assert Tidy(s[1..]) by {
        forall i | 0 <= i < |s[1..]|
          ensures !Excess(s[1..][i..])
        {
          assert s[1..][i..] == s[i + 1..];
          assert !Excess(s[i + 1..]);
        }
      }
      CollapseTidy(s[1..]);
    }
  }

  /** A whitespace run closed by a non-space character (or the end). */
  lemma {:induction false} RunOf(w: string, u: string)
    requires AllSpace(w) && (u == "" || !IsSpace(u[0]))
    ensures Run(w + u) == w
    decreases |w|
  {
    if |w| == 0 {
      assert w + u == u;
    } else {
      assert (w + u)[1..] == w[1..] + u;
      RunOf(w[1..], u);
      assert (w + u)[..|w|] == w;
    }
  }

  /** A text splits into its opening run and the rest, which starts with a
    * non-space character if anything. */
  lemma RunSplit(t: string) returns (u: string)
    ensures t == Run(t) + u
    ensures u == "" || !IsSpace(u[0])
  {
    u := t[SpaceRun(t)..];
    assert t == t[..SpaceRun(t)] + u;
  }

  lemma CollapseKeep(s: string)
    requires |s| > 0 && !Excess(s)
    ensures Collapse(s) == [s[0]] + Collapse(s[1..])
  {
  }

  lemma CollapseMerge(s: string)
    requires Excess(s)
    ensures Collapse(s) == "\n\n" + Collapse(s[1 + LastBreakEnd(Run(s[1..]))..])
  {
  }

  /** The first character of a run of at most one line break is kept. */
  lemma CollapseRunStep(w: string, u: string)
    requires |w| > 0 && AllSpace(w) && Breaks(w) <= 1 && (u == "" || !IsSpace(u[0]))
    ensures AllSpace(w[1..]) && Breaks(w[1..]) <= 1
    ensures Collapse(w + u) == [w[0]] + Collapse(w[1..] + u)
  {
    var s := w + u;
    ConsTail(w, u);
    assert AllSpace(w[1..]) && Breaks(w[1..]) <= 1;
    RunOf(w[1..], u);
    assert !Excess(s);
    CollapseKeep(s);
  }

  /** Collapsing keeps a whitespace run with at most one line break. */
  lemma {:induction false} CollapseKeepsRun(w: string, u: string)
    requires AllSpace(w) && Breaks(w) <= 1 && (u == "" || !IsSpace(u[0]))
    ensures Collapse(w + u) == w + Collapse(u)
    decreases |w|
  {
    if |w| == 0 {
      assert w + u == u;
    } else {
      CollapseRunStep(w, u);
      CollapseKeepsRun(w[1..], u);
      HeadTail(w);
    }
  }

  /** The text after a run starts with a non-space character, and so does
    * its collapsed form. */
  lemma CollapseStartsSolid(u: string)
    requires u == "" || !IsSpace(u[0])
    ensures Collapse(u) == "" || !IsSpace(Collapse(u)[0])
  {
    if |u| > 0 {
      CollapseKeep(u);
    }
  }

  lemma TidySuffix(a: string, b: string)
    requires Tidy(b)
    requires forall i :: 0 <= i < |a| ==> !Excess((a + b)[i..])
    ensures Tidy(a + b)
  {
    forall i | 0 <= i < |a + b|
      ensures !Excess((a + b)[i..])
    {
      if i >= |a| {
        assert (a + b)[i..] == b[i - |a|..];
      }
    }
  }

  lemma AllSpaceSuffix(w: string, e: nat)
    requires AllSpace(w) && e <= |w|
    ensures AllSpace(w[e..])
  {
    assert forall i :: 0 <= i < |w[e..]| ==> w[e..][i] == w[e + i];
  }

  /** After collapsing, no line break is followed by whitespace holding two
    * more: every match of the pattern has been replaced. */
  lemma {:induction false} CollapsedIsTidy(s: string)
    ensures Tidy(Collapse(s))
    decreases |s|
  {
    if |s| > 0 {
      var t := s[1..];
      var w := Run(t);
      var u := RunSplit(t);
      if Excess(s) {
        var e := LastBreakEnd(w);
        var rest := s[1 + e..];
        assert rest == w[e..] + u;
        CollapsedIsTidy(rest);
        CollapseMerge(s);
        AllSpaceSuffix(w, e);
        CollapseKeepsRun(w[e..], u);
        CollapseStartsSolid(u);
        MergedIsTidy(w[e..], Collapse(u));
      } else {
        CollapsedIsTidy(t);
        CollapseKeep(s);
        if s[0] == '\n' {
          CollapseKeepsRun(w, u);
          CollapseStartsSolid(u);
          RunOf(w, Collapse(u));
          assert ([s[0]] + Collapse(t))[1..] == Collapse(t);
        }
        assert ([s[0]] + Collapse(t))[0..] == [s[0]] + Collapse(t);
        TidySuffix([s[0]], Collapse(t));
      }
    }
  }

  /** A character followed by a run with at most one line break is not
    * where the pattern matches. */
  lemma NoExcessHead(h: char, v: string, c: string)
    requires AllSpace(v) && Breaks(v) <= 1 && (c == "" || !IsSpace(c[0]))
    ensures !Excess([h] + (v + c))
  {
    assert ([h] + (v + c))[1..] == v + c;
    RunOf(v, c);
  }

  /** The two line breaks a match leaves are followed by the match's last
    * spaces, with no line break among them. */
  lemma MergedIsTidy(v: string, c: string)
    requires AllSpace(v) && Breaks(v) == 0 && (c == "" || !IsSpace(c[0]))
    requires Tidy(v + c)
    ensures Tidy("\n\n" + (v + c))
  {
    MergedHead(v, c);
    TidySuffix("\n\n", v + c);
  }

  lemma MergedHead(v: string, c: string)
    requires AllSpace(v) && Breaks(v) == 0 && (c == "" || !IsSpace(c[0]))
    ensures forall i :: 0 <= i < 2 ==> !Excess(("\n\n" + (v + c))[i..])
  {
    MergedFirst(v, c);
    MergedSecond(v, c);
    assert ("\n\n" + (v + c))[0..] == "\n\n" + (v + c);
  }

  lemma MergedFirst(v: string, c: string)
    requires AllSpace(v) && Breaks(v) == 0 && (c == "" || !IsSpace(c[0]))
    ensures !Excess("\n\n" + (v + c))
  {
    var t := "\n\n" + (v + c);
    var nl: string := ['\n'];
    var nv := nl + v;
    assert t[1..] == nv + c;
    assert Breaks(nl[1..]) == 0;
    BreaksAppend(nl, v);
    assert AllSpace(nv);
    RunOf(nv, c);
  }

  lemma MergedSecond(v: string, c: string)
    requires AllSpace(v) && Breaks(v) == 0 && (c == "" || !IsSpace(c[0]))
    ensures !Excess(("\n\n" + (v + c))[1..])
  {
    NoExcessHead('\n', v, c);
    assert ("\n\n" + (v + c))[1..] == ['\n'] + (v + c);
  }

  // ------------------------------------------------------------ validation

  function Itself(s: string): string { s }

  /** `sorted(...)` of a collection of strings: ascending code-point order,
    * each element once. */
  function SortedSet(xs: seq<string>): (r: seq<string>)
    ensures SortedByText(r, Itself) && NoDups(r)
    ensures forall x :: x in r <==> x in xs
  {
    var d := Dedup(xs);
    var r := SortByText(d, Itself);
    NoDupsCounts(d);
    forall x | x in r ensures x in d {
      assert x in multiset(r);
    }
    forall x | x in d ensures x in r {
      assert x in multiset(d);
    }
    CountsNoDups(r);
    r
  }

  lemma {:induction false} NoDupsCounts(xs: seq<string>)
    requires NoDups(xs)
    ensures forall x :: multiset(xs)[x] <= 1
    decreases |xs|
  {
    if |xs| > 0 {
      var init := xs[..|xs| - 1];
      assert xs == init + [xs[|xs| - 1]];
      assert NoDups(init);
      NoDupsCounts(init);
      assert xs[|xs| - 1] !in init;
    }
  }

  lemma CountsNoDups(r: seq<string>)
    requires forall x :: multiset(r)[x] <= 1
    ensures NoDups(r)
  {
    forall i, j | 0 <= i < j < |r|
      ensures r[i] != r[j]
    {
      Copies(r, i, j);
    }
  }

  lemma Copies(r: seq<string>, i: nat, j: nat)
    requires i < j < |r|
    ensures r[i] == r[j] ==> multiset(r)[r[i]] >= 2
  {
    assert r == r[..i] + [r[i]] + r[i + 1..j] + [r[j]] + r[j + 1..];
  }

  /** The result of `validate_template_variables`. */
  datatype Validation = Validation(
    templateName: string, required: seq<string>, available: seq<string>,
    missing: seq<string>, isValid: bool)

  /** The company keys and the six candidate keys, as the renderer lists them. */
  const AvailableList: seq<string> := [
    CompanyName, CompanyWebsite, HrContactName, HrContactEmail, HrContactPhone, SenderName,
    CandidateName, CandidateEmail, JobTitle, ExperienceYears, Skills, Location]

  /** What ends a field's name for the variable scan: only `}` as the code
    * has it (`asWritten`), or also the start of a conversion, format spec,
    * attribute or index. */
  function ScanEnds(asWritten: bool): (ends: set<char>)
    ensures forall c :: c in ends ==> !IsWordChar(c) && c != '{'
  {
    if asWritten then ClosingBrace() else NameEnds()
  }

  /** The variables named in a template's text, subject first. */
  function TextFields(t: Template, asWritten: bool): seq<string>
  {
    FindFields(t.SubjectText(), ScanEnds(asWritten)) + FindFields(t.BodyText(), ScanEnds(asWritten))
  }

  lemma AvailableListKeys()
    ensures forall n :: n in AvailableList <==> n in CompanyKeys + CandidateKeys
  {
  }

  /** The sorted names of `found` that no variable supplies. */
  function MissingOf(found: seq<string>): (r: seq<string>)
    ensures SortedByText(r, Itself) && NoDups(r)
    ensures forall n :: n in r <==> n in found && n !in CompanyKeys + CandidateKeys
    ensures |r| == 0 <==> forall n :: n in found ==> n in CompanyKeys + CandidateKeys
  {
    var r := SortedSet(Filter(found, n => n !in CompanyKeys + CandidateKeys));
    assert |r| > 0 ==> r[0] in r;
    r
  }

  /** The check for one template's text. */
  function Validate(templateName: string, t: Template, asWritten: bool): (v: Validation)
    ensures v.templateName == templateName
    ensures SortedByText(v.required, Itself) && NoDups(v.required)
    ensures SortedByText(v.available, Itself) && NoDups(v.available)
    ensures SortedByText(v.missing, Itself) && NoDups(v.missing)
    ensures forall n :: n in v.required <==> n in TextFields(t, asWritten)
    ensures forall n :: n in v.available <==> n in CompanyKeys + CandidateKeys
    ensures forall n :: n in v.missing <==> n in TextFields(t, asWritten) && n !in CompanyKeys + CandidateKeys
    ensures v.isValid <==> forall n :: n in TextFields(t, asWritten) ==> n in CompanyKeys + CandidateKeys
  {
    var fields := TextFields(t, asWritten);
    var missing := MissingOf(fields);
    AvailableListKeys();
    Validation(templateName, SortedSet(fields), SortedSet(AvailableList), missing, |missing| == 0)
  }

  /** `validate_template_variables`: the lookup's error, or the check. As
    * the code has it (`asWritten`) the scan is `\{(\w+)\}`; corrected, it
    * also lists a name followed by a conversion, spec, attribute or index. */
  function ValidateTemplateVariables(templateName: string, lookup: TemplateLookup, asWritten: bool): (r: Result<Validation, string>)
    ensures r.Success? <==> lookup(templateName).Success?
    ensures r.Failure? ==> r.error == lookup(templateName).error
  {
    match lookup(templateName)
    case Failure(m) => Failure(m)
    case Success(t) => Success(Validate(templateName, t, asWritten))
  }

  /** A template the corrected check passes never fails rendering for want
    * of a variable, whoever the candidate is. */
  lemma ValidRenders(c: CandidateData, templateName: string, s: Settings, lookup: TemplateLookup)
    requires ValidateTemplateVariables(templateName, lookup, false).Success?
    requires ValidateTemplateVariables(templateName, lookup, false).value.isValid
    ensures !(RenderEmail(c, templateName, s, lookup).Failure? && RenderEmail(c, templateName, s, lookup).error.MissingVariable?)
  {
    var t := lookup(templateName).value;
    var vars := TemplateVars(s, c);
    if Render(t, vars).Failure? && Render(t, vars).error.MissingVariable? {
      RenderMissingListed(t, vars);
      assert false;
    }
  }

  /** A template whose subject is the single field `{foo:>5}`. */
  const SpecTemplate := Template([Field(SpecFieldName)], [])
  const SpecFieldName := "foo:>5"

  /** As the code has it, the check passes a template whose one field has a
    * format spec and names no variable, and rendering it then fails on that
    * name; the corrected scan lists the name and fails the check. */
  lemma SpecFieldSlipsThrough(c: CandidateData, s: Settings, lookup: TemplateLookup)
    requires lookup("spec") == Success(SpecTemplate)
    ensures ValidateTemplateVariables("spec", lookup, true).value.isValid
    ensures !ValidateTemplateVariables("spec", lookup, false).value.isValid
    ensures RenderEmail(c, "spec", s, lookup) == Failure(MissingVariable("foo"))
  {
    SpecParts();
    FooUnknown();
    SpecFieldScans("foo", ':', ">5}");
    assert TextFields(SpecTemplate, true) == [] + [];
    assert TextFields(SpecTemplate, false) == ["foo"] + [];
    SpecRenders(TemplateVars(s, c));
  }

  lemma SpecRenders(vars: map<string, string>)
    requires "foo" !in vars
    ensures Render(SpecTemplate, vars) == Failure(MissingVariable("foo"))
  {
    SpecParts();
    SpecFieldMissing("foo", ':', ">5", "", vars);
    assert Format(SpecTemplate.SubjectText(), vars) == Failure(KeyError("foo"));
  }

  /** The stored text of the example template, piece by piece. */
  lemma SpecParts()
    ensures SpecTemplate.SubjectText() == "{" + "foo" + [':'] + ">5}"
    ensures SpecTemplate.SubjectText() == "{" + "foo" + [':'] + ">5" + "}" + ""
    ensures SpecTemplate.BodyText() == ""
    ensures IsName("foo") && ':' in NameEnds() && '{' !in ">5}" && '}' !in ">5" && ConversionOk([':'] + ">5")
  {
    assert Source([Field(SpecFieldName)]) == "{" + SpecFieldName + "}" + Source([]);
    assert !IsDigit("foo"[0]);
    SpecConversion();
  }

  lemma SpecConversion()
    ensures ConversionOk([':'] + ">5")
  {
    var t := [':'] + ">5";
    assert !NotConversionOrSpec(t[0]);
    assert Patterns.RunEnd(t, 0, NotConversionOrSpec) == 0;
  }

  lemma FooUnknown()
    ensures "foo" !in CompanyKeys + CandidateKeys
  {
  }

  // ------------------------------------------------------- personalising

  /** The skills text after clean-up: stripped, unless it is blank or ends
    * with a full stop. */
  function EnhancedSkills(skills: string): string
  {
    if skills == "" then skills
    else
      var s := Strip(skills);
      if ',' in s && !EndsWith(s, ".") then s
      else if s != "" && !EndsWith(s, ".") then s
      else skills
  }

  /** "1 year" or "N years". */
  function YearsPhrase(n: nat): string
  {
    if n == 1 then "1 year" else NatToString(n) + " years"
  }

  /** The experience text after clean-up: an all-digit value becomes a
    * phrase, anything else is kept. */
  function EnhancedYears(years: string): string
  {
    if years == "" then years
    else
      var y := Strip(years);
      if IsDigits(y) then YearsPhrase(DigitsValue(y)) else years
  }

  /** The job title after clean-up. */
  function EnhancedTitle(title: string): string
  {
    if title == "" then title else Title(Strip(title))
  }

  /** `enhance_candidate_data`: rewrites skills, experience and title in
    * place and returns the same record. */
  method EnhanceCandidateData(c: CandidateData) returns (r: CandidateData)
    modifies c
    ensures r == c
    ensures c.skills == EnhancedSkills(old(c.skills))
    ensures c.experienceYears == EnhancedYears(old(c.experienceYears))
    ensures c.jobTitle == EnhancedTitle(old(c.jobTitle))
    ensures c.name == old(c.name) && c.email == old(c.email) && c.location == old(c.location)
  {
    EnhanceSkills(c);
    EnhanceYears(c);
    EnhanceTitle(c);
    r := c;
  }

  /** The skills step of `enhance_candidate_data`. */
  method EnhanceSkills(c: CandidateData)
    modifies c
    ensures c.skills == EnhancedSkills(old(c.skills))
    ensures c.name == old(c.name) && c.email == old(c.email) && c.location == old(c.location)
    ensures c.experienceYears == old(c.experienceYears) && c.jobTitle == old(c.jobTitle)
  {
    if c.skills != "" {
      var skills := Strip(c.skills);
      if ',' in skills && !EndsWith(skills, ".") {
        c.skills := skills;
      } else if skills != "" && !EndsWith(skills, ".") {
        c.skills := skills;
      }
    }
  }

  /** The experience step of `enhance_candidate_data`. */
  method EnhanceYears(c: CandidateData)
    modifies c
    ensures c.experienceYears == EnhancedYears(old(c.experienceYears))
    ensures c.name == old(c.name) && c.email == old(c.email) && c.location == old(c.location)
    ensures c.skills == old(c.skills) && c.jobTitle == old(c.jobTitle)
  {
    if c.experienceYears != "" {
      var years := Strip(c.experienceYears);
      if IsDigits(years) {
        var numYears := DigitsValue(years);
        if numYears == 1 {
          c.experienceYears := "1 year";
        } else {
          c.experienceYears := NatToString(numYears) + " years";
        }
      }
    }
  }

  /** The job-title step of `enhance_candidate_data`. */
  method EnhanceTitle(c: CandidateData)
    modifies c
    ensures c.jobTitle == EnhancedTitle(old(c.jobTitle))
    ensures c.name == old(c.name) && c.email == old(c.email) && c.location == old(c.location)
    ensures c.skills == old(c.skills) && c.experienceYears == old(c.experienceYears)
  {
    if c.jobTitle != "" {
      c.jobTitle := Title(Strip(c.jobTitle));
    }
  }

  /** Skills are stripped exactly when the stripped text is non-empty and
    * does not end with a full stop; the comma test changes nothing. */
  lemma SkillsEnhanced(skills: string)
    ensures EnhancedSkills(skills) ==
      (if Strip(skills) != "" && !EndsWith(Strip(skills), ".") then Strip(skills) else skills)
  {
    if skills == "" {
      assert Strip(skills) == "";
    }
  }

  /** An all-digit experience becomes the phrase for its value, read back
    * from the phrase's digits; anything else is untouched. */
  lemma YearsEnhanced(years: string)
    ensures IsDigits(Strip(years)) ==> EnhancedYears(years) == YearsPhrase(DigitsValue(Strip(years)))
    ensures !IsDigits(Strip(years)) ==> EnhancedYears(years) == years
    ensures IsDigits(Strip(years)) ==>
      exists d :: IsDigits(d) && DigitsValue(d) == DigitsValue(Strip(years)) && StartsWith(EnhancedYears(years), d + " year")
  {
    if years == "" {
      assert Strip(years) == "";
    }
    if IsDigits(Strip(years)) {
      var n := DigitsValue(Strip(years));
      var d := NatToString(n);
      NatToStringRoundTrip(n);
      if n == 1 {
        assert d == "1";
        assert YearsPhrase(n)[..|d + " year"|] == d + " year";
      } else {
        assert YearsPhrase(n)[..|d + " year"|] == d + " year";
      }
    }
  }

  /** A phrase is stripped and is not all digits. */
  lemma PhraseShape(n: nat)
    ensures IsStripped(YearsPhrase(n)) && !IsDigits(YearsPhrase(n))
  {
    var d := NatToString(n);
    var tail := if n == 1 then " year" else " years";
    assert YearsPhrase(n) == d + tail by {
      if n == 1 {
        assert d == "1";
      }
    }
    assert (d + tail)[0] == d[0];
    assert (d + tail)[|d|] == ' ';
  }

  /** Enhancing twice changes nothing more than enhancing once. */
  lemma YearsIdempotent(years: string)
    ensures EnhancedYears(EnhancedYears(years)) == EnhancedYears(years)
  {
    if years != "" && IsDigits(Strip(years)) {
      var e := YearsPhrase(DigitsValue(Strip(years)));
      PhraseShape(DigitsValue(Strip(years)));
      StripOfStripped(e);
    }
  }

  lemma SkillsIdempotent(skills: string)
    ensures EnhancedSkills(EnhancedSkills(skills)) == EnhancedSkills(skills)
  {
    SkillsEnhanced(skills);
    SkillsEnhanced(EnhancedSkills(skills));
    StripIdempotent(skills);
  }

  /** Case mapping keeps letters letters and whitespace whitespace, and
    * applying it twice is applying it once. */
  lemma CaseMapping(c: char)
    ensures UpperChar(UpperChar(c)) == UpperChar(c) && LowerChar(LowerChar(c)) == LowerChar(c)
    ensures IsSpace(UpperChar(c)) == IsSpace(c) && IsSpace(LowerChar(c)) == IsSpace(c)
  {
  }

  /** The case `Title` gives the character at `i`. */
  lemma TitleAt(s: string, i: nat)
    requires i < |s|
    ensures Title(s)[i] == (if i == 0 || !IsLetter(s[i - 1]) then UpperChar(s[i]) else LowerChar(s[i]))
    ensures IsLetter(Title(s)[i]) == IsLetter(s[i]) && IsSpace(Title(s)[i]) == IsSpace(s[i])
  {
    CaseMapping(s[i]);
  }

  /** Title-casing keeps whitespace where it was. */
  lemma TitleStripped(s: string)
    requires IsStripped(s)
    ensures IsStripped(Title(s))
  {
    if |s| > 0 {
      TitleAt(s, 0);
      TitleAt(s, |s| - 1);
    }
  }

  /** Title-casing a title-cased text changes nothing. */
  lemma TitleIdempotent(s: string)
    ensures Title(Title(s)) == Title(s)
  {
    var t := Title(s);
    forall i | 0 <= i < |s|
      ensures Title(t)[i] == t[i]
    {
      TitleAt(s, i);
      TitleAt(t, i);
      CaseMapping(s[i]);
      if i > 0 {
        TitleAt(s, i - 1);
      }
    }
  }

  lemma TitleEnhancedIdempotent(title: string)
    ensures EnhancedTitle(EnhancedTitle(title)) == EnhancedTitle(title)
  {
    if title != "" {
      var t := Title(Strip(title));
      TitleStripped(Strip(title));
      StripOfStripped(t);
      TitleIdempotent(Strip(title));
    }
  }

  /** Cleaning up a record a second time leaves it as the first pass did. */
  lemma EnhanceIdempotent(skills: string, years: string, title: string)
    ensures EnhancedSkills(EnhancedSkills(skills)) == EnhancedSkills(skills)
    ensures EnhancedYears(EnhancedYears(years)) == EnhancedYears(years)
    ensures EnhancedTitle(EnhancedTitle(title)) == EnhancedTitle(title)
  {
    SkillsIdempotent(skills);
    YearsIdempotent(years);
    TitleEnhancedIdempotent(title);
  }

  // -------------------------------------------------------- subject lines

  /** The longest subject line kept. */
  const SubjectLimit := 78

  /** The five candidate subject lines, in order. */
  function SubjectCandidates(c: CandidateData, s: Settings): (r: seq<string>)
    reads c
    ensures |r| == 5
  {
    var topic := if c.skills != "" then Split(c.skills, ',')[0] else "Tech";
    [ "Exciting Opportunity at " + s.companyName + " - We're Interested in Your Profile!",
      c.name + ", Your " + c.jobTitle + " Experience Caught Our Attention",
      "Perfect Match: " + c.jobTitle + " Role at " + s.companyName,
      "We'd Love to Chat - Opportunity at " + s.companyName,
      "Your Skills in " + topic + " Are Exactly What We Need" ]
  }

  predicate FitsSubject(line: string) { |line| <= SubjectLimit }

  /** `generate_personalized_subject_variations`: the candidate lines that
    * fit, in their original order. */
  function SubjectVariations(c: CandidateData, s: Settings): (r: seq<string>)
    reads c
    ensures |r| <= 5
    ensures forall v :: v in r ==> |v| <= SubjectLimit
    ensures forall v :: v in SubjectCandidates(c, s) && |v| <= SubjectLimit ==> v in r
    ensures Subseq(r, SubjectCandidates(c, s))
  {
    Filter(SubjectCandidates(c, s), FitsSubject)
  }
}
