/** `gemini_parser.py`: turning a decoded AI reply into a candidate, the list
  * cleaning, the validation of the parsed fields, and the hybrid parser's
  * choice between the AI and the traditional parser. The AI call and the JSON
  * decoder are parameters. */
module GeminiParser {
  import opened Wrappers
  import opened Text
  import opened Seqs
  import opened Patterns
  import opened PyValue
  import ResumeParser

  // -------------------------------------------------------- the candidate

  /** The members of the decoded reply object that the parser reads, and the
    * keys of the validation issues; `Name` is each one's JSON name. */
  datatype JsonKey =
    | FullName | Email | Phone | LinkedInUrl | Location | Skills | ExperienceSummary | Education
    | CurrentCompany | CurrentPosition | TotalExperience | Certifications | Languages
  {
    function Name(): string
    {
      match this
      case FullName => "full_name"
      case Email => "email"
      case Phone => "phone"
      case LinkedInUrl => "linkedin_url"
      case Location => "location"
      case Skills => "skills"
      case ExperienceSummary => "experience_summary"
      case Education => "education"
      case CurrentCompany => "current_company"
      case CurrentPosition => "current_position"
      case TotalExperience => "total_experience"
      case Certifications => "certifications"
      case Languages => "languages"
    }
  }

  /** The fields of a `GeminiParsedCandidate`. */
  datatype GeminiFields = GeminiFields(
    fullName: string, email: string, phone: string, linkedinUrl: string, location: string,
    skills: seq<string>, experienceSummary: string, education: seq<string>,
    currentCompany: string, currentPosition: string, totalExperience: string,
    certifications: seq<string>, languages: seq<string>)

  /** A candidate with every field at its default. */
  const EmptyCandidate := GeminiFields("", "", "", "", "", [], "", [], "", "", "", [], [])

  /** A `GeminiParsedCandidate` object. */
  class GeminiParsedCandidate {
    var fullName: string
    var email: string
    var phone: string
    var linkedinUrl: string
    var location: string
    var skills: seq<string>
    var experienceSummary: string
    var education: seq<string>
    var currentCompany: string
    var currentPosition: string
    var totalExperience: string
    var certifications: seq<string>
    var languages: seq<string>

    function Fields(): GeminiFields
      reads this
    {
      GeminiFields(fullName, email, phone, linkedinUrl, location, skills, experienceSummary, education,
                   currentCompany, currentPosition, totalExperience, certifications, languages)
    }

    /** Every field at its default (`__post_init__` turns the lists into []). */
    constructor ()
      ensures Fields() == EmptyCandidate
    {
      fullName, email, phone, linkedinUrl, location := "", "", "", "", "";
      skills, experienceSummary, education := [], "", [];
      currentCompany, currentPosition, totalExperience := "", "", "";
      certifications, languages := [], [];
    }

    /** A candidate holding the given fields. */
    constructor Of(f: GeminiFields)
      ensures Fields() == f
    {
      fullName, email, phone, linkedinUrl, location := f.fullName, f.email, f.phone, f.linkedinUrl, f.location;
      skills, experienceSummary, education := f.skills, f.experienceSummary, f.education;
      currentCompany, currentPosition, totalExperience := f.currentCompany, f.currentPosition, f.totalExperience;
      certifications, languages := f.certifications, f.languages;
    }
  }

  // ---------------------------------------------------- clean_list_field

  /** `str(item).strip()`. */
  function ItemText(v: Value): (r: string)
    ensures IsStripped(r)
    ensures v.VStr? ==> r == Strip(v.s)
    ensures v.VFloat? ==> r == v.shown
  {
    if v.VFloat? then FloatTextStripped(v.shown); Strip(Str(v))
    else Strip(Str(v))
  }

  /** Every item as text. */
  function ItemTexts(items: seq<Value>): (r: seq<string>)
    ensures |r| == |items|
    ensures forall k :: 0 <= k < |r| ==> r[k] == ItemText(items[k])
  {
    Map(items, ItemText)
  }

  /** An item that is kept: longer than one character. */
  predicate LongItem(s: string)
  {
    |s| > 1
  }

  predicate NonEmpty(s: string)
  {
    s != ""
  }

  /** `[item.strip() for item in s.split(',') if item.strip()]`. */
  function CommaItems(s: string): (r: seq<string>)
    ensures forall k :: 0 <= k < |r| ==> r[k] != "" && IsStripped(r[k])
  {
    Filter(Stripped(Split(s, ',')), NonEmpty)
  }

  /** Strings as values. */
  function AsValues(xs: seq<string>): (r: seq<Value>)
    ensures |r| == |xs| && forall k :: 0 <= k < |xs| ==> r[k] == VStr(xs[k])
  {
    seq(|xs|, k requires 0 <= k < |xs| => VStr(xs[k]))
  }

  /** The cleaning loop of `clean_list_field` on the item texts: those longer
    * than one character, in order, at most 20. */
  function CleanTexts(texts: seq<string>): (r: seq<string>)
    ensures |r| <= 20
    ensures forall k :: 0 <= k < |r| ==> LongItem(r[k]) && r[k] in texts
    ensures |Filter(texts, LongItem)| <= 20 ==> forall x :: x in texts && LongItem(x) ==> x in r
  {
    var kept := Filter(texts, LongItem);
    var r := Take(kept, 20);
    assert forall k :: 0 <= k < |r| ==> r[k] == kept[k];
    assert forall k :: 0 <= k < |kept| ==> kept[k] in kept;
    r
  }

  /** `clean_list_field`: [] for a falsy value or one that is neither a string
    * nor a list; a string is first split on commas. */
  function ListField(v: Value): (r: seq<string>)
    ensures !Truthy(v) || !(v.VStr? || v.VList?) ==> r == []
  {
    if !Truthy(v) then []
    else if v.VStr? then CleanTexts(ItemTexts(AsValues(CommaItems(v.s))))
    else if v.VList? then CleanTexts(ItemTexts(v.items))
    else []
  }

  /** At most 20 items, each stripped and longer than one character; from a
    * list, each is the text of one of its items. */
  lemma ListFieldShape(v: Value)
    ensures |ListField(v)| <= 20
    ensures forall k :: 0 <= k < |ListField(v)| ==> LongItem(ListField(v)[k]) && IsStripped(ListField(v)[k])
    ensures v.VList? ==> forall k :: 0 <= k < |ListField(v)| ==> ListField(v)[k] in ItemTexts(v.items)
  {
    if Truthy(v) && v.VStr? {
      var texts := ItemTexts(AsValues(CommaItems(v.s)));
      assert ListField(v) == CleanTexts(texts);
      CleanTextsShape(texts);
    } else if Truthy(v) && v.VList? {
      var texts := ItemTexts(v.items);
      assert ListField(v) == CleanTexts(texts);
      CleanTextsShape(texts);
    }
  }

  /** The cleaning loop keeps stripped texts stripped. */
  lemma CleanTextsShape(texts: seq<string>)
    requires forall k :: 0 <= k < |texts| ==> IsStripped(texts[k])
    ensures forall k :: 0 <= k < |CleanTexts(texts)| ==>
              LongItem(CleanTexts(texts)[k]) && IsStripped(CleanTexts(texts)[k]) && CleanTexts(texts)[k] in texts
  {
    var r := CleanTexts(texts);
    forall k | 0 <= k < |r|
      ensures IsStripped(r[k])
    {
      var j :| 0 <= j < |texts| && texts[j] == r[k];
    }
  }


  /** A string field: its comma-split parts, stripped, longer than one
    * character, at most 20 (the non-empty test of the split is subsumed). */
  lemma StringField(s: string)
    requires s != ""
    ensures ListField(VStr(s)) == Take(Filter(Stripped(Split(s, ',')), LongItem), 20)
  {
    StrippedParts(Stripped(Split(s, ',')));
  }

  lemma StrippedParts(parts: seq<string>)
    requires forall k :: 0 <= k < |parts| ==> IsStripped(parts[k])
    ensures CleanTexts(ItemTexts(AsValues(Filter(parts, NonEmpty)))) == Take(Filter(parts, LongItem), 20)
  {
    var kept := Filter(parts, NonEmpty);
    assert forall k :: 0 <= k < |kept| ==> IsStripped(kept[k]) by {
      forall k | 0 <= k < |kept|
        ensures IsStripped(kept[k])
      {
        assert kept[k] in parts;
      }
    }
    TextsOfStrings(kept);
    FilterTwice(parts, NonEmpty, LongItem);
  }

  /** Stripped strings read back as themselves. */
  lemma TextsOfStrings(xs: seq<string>)
    requires forall k :: 0 <= k < |xs| ==> IsStripped(xs[k])
    ensures ItemTexts(AsValues(xs)) == xs
  {
    var r := ItemTexts(AsValues(xs));
    forall k | 0 <= k < |xs|
      ensures r[k] == xs[k]
    {
      StripOfStripped(xs[k]);
    }
  }

  /** Filtering by `p` and then by a stronger `q` is filtering by `q`. */
  lemma {:induction false} FilterTwice(xs: seq<string>, p: string -> bool, q: string -> bool)
    requires forall x :: q(x) ==> p(x)
    ensures Filter(Filter(xs, p), q) == Filter(xs, q)
    decreases |xs|
  {
    if |xs| > 0 {
      var n := |xs|;
      var init := xs[..n - 1];
      FilterTwice(init, p, q);
      FilterSnoc(xs, n - 1, p);
      FilterSnoc(xs, n - 1, q);
      assert xs[..n] == xs;
      FilterAppend(Filter(init, p), if p(xs[n - 1]) then [xs[n - 1]] else [], q);
      if p(xs[n - 1]) {
        FilterOne(xs[n - 1], q);
      }
    }
  }

  lemma FilterOne(x: string, q: string -> bool)
    ensures Filter([x], q) == if q(x) then [x] else []
  {
    assert [x][..0] == [];
  }

  /** Cleaning a cleaned list changes nothing. */
  lemma ListFieldIdempotent(v: Value)
    ensures ListField(VList(AsValues(ListField(v)))) == ListField(v)
  {
    ListFieldShape(v);
    ListFieldOfClean(ListField(v));
  }

  /** A list of at most 20 stripped texts longer than one character is clean. */
  lemma ListFieldOfClean(r: seq<string>)
    requires |r| <= 20
    requires forall k :: 0 <= k < |r| ==> LongItem(r[k]) && IsStripped(r[k])
    ensures ListField(VList(AsValues(r))) == r
  {
    if |r| > 0 {
      CleanTextsOfClean(r);
    }
  }

  lemma CleanTextsOfClean(r: seq<string>)
    requires |r| <= 20
    requires forall k :: 0 <= k < |r| ==> LongItem(r[k]) && IsStripped(r[k])
    ensures CleanTexts(ItemTexts(AsValues(r))) == r
  {
    TextsOfStrings(r);
    assert forall x :: x in r ==> LongItem(x);
    FilterAll(r, LongItem);
  }

  /** `clean_list_field`, with its loop. */
  method CleanListField(v: Value) returns (r: seq<string>)
    ensures r == ListField(v)
  {
    if !Truthy(v) {
      return [];
    }
    var items: seq<Value>;
    if v.VStr? {
      items := AsValues(CommaItems(v.s));
    } else if v.VList? {
      items := v.items;
    } else {
      return [];
    }
    var cleaned := CleanItems(items);
    r := Take(cleaned, 20);
  }

  /** The loop of `clean_list_field`: the item texts longer than one character. */
  method CleanItems(items: seq<Value>) returns (cleaned: seq<string>)
    ensures cleaned == Filter(ItemTexts(items), LongItem)
  {
    cleaned := [];
    for i := 0 to |items|
      invariant cleaned == Filter(ItemTexts(items[..i]), LongItem)
    {
      ItemTextsSnoc(items, i);
      var t := CleanItem(items[i]);
      if t != "" && |t| > 1 {
        cleaned := cleaned + [t];
      }
    }
    assert items[..|items|] == items;
  }

  /** `str(item).strip()`, without the conversion for a string. */
  method CleanItem(item: Value) returns (t: string)
    ensures t == ItemText(item)
  {
    if item.VStr? {
      t := Strip(item.s);
    } else {
      t := Strip(Str(item));
    }
  }


  lemma ItemTextsSnoc(items: seq<Value>, i: nat)
    requires i < |items|
    ensures Filter(ItemTexts(items[..i + 1]), LongItem) ==
              Filter(ItemTexts(items[..i]), LongItem) + if LongItem(ItemText(items[i])) then [ItemText(items[i])] else []
  {
    var ys := ItemTexts(items[..i + 1]);
    MapSnoc(items, i, ItemText);
    assert ys[..i] == ItemTexts(items[..i]);
    FilterSnoc(ys, i, LongItem);
  }

  // ---------------------------------------------- create_candidate_from_json

  /** `str(data.get(key, '')).strip()`. */
  function Scalar(data: map<JsonKey, Value>, key: JsonKey): (r: string)
    ensures IsStripped(r)
    ensures key !in data ==> r == ""
    ensures key in data && data[key].VNone? ==> r == "None"
    ensures key in data && data[key].VStr? ==> r == Strip(data[key].s)
    ensures key in data && data[key].VFloat? ==> r == data[key].shown
  {
    StripOfStripped("None");
    if key in data then ItemText(data[key]) else ""
  }

  /** `data.get(key, default)`. */
  function Lookup(data: map<JsonKey, Value>, key: JsonKey, default: Value): Value
  {
    if key in data then data[key] else default
  }

  /** `clean_list_field(data.get(key, []))`. */
  function ListOf(data: map<JsonKey, Value>, key: JsonKey): (r: seq<string>)
    ensures key !in data ==> r == []
  {
    ListField(Lookup(data, key, VList([])))
  }

  /** The candidate `create_candidate_from_json` builds from a decoded object. */
  function CandidateOf(data: map<JsonKey, Value>): (c: GeminiFields)
  {
    GeminiFields(Scalar(data, FullName), Scalar(data, Email), Scalar(data, Phone),
                 Scalar(data, LinkedInUrl), Scalar(data, Location),
                 ListOf(data, Skills), Scalar(data, ExperienceSummary), ListOf(data, Education),
                 Scalar(data, CurrentCompany), Scalar(data, CurrentPosition),
                 Scalar(data, TotalExperience), ListOf(data, Certifications), ListOf(data, Languages))
  }

  /** An empty object gives the default candidate. */
  lemma EmptyObject()
    ensures CandidateOf(map[]) == EmptyCandidate
  {
  }

  /** A JSON null name is not a missing one: it becomes the text "None", so the
    * hybrid parser accepts the reply. */
  lemma NullName(data: map<JsonKey, Value>)
    requires FullName in data && data[FullName] == VNone
    ensures CandidateOf(data).fullName == "None"
    ensures CandidateOf(data - {FullName}).fullName == ""
  {
  }

  /** `create_candidate_from_json`: every field read from the object, the
    * text fields stripped and the list fields cleaned. */
  method CreateCandidateFromJson(data: map<JsonKey, Value>) returns (c: GeminiParsedCandidate)
    ensures fresh(c) && c.Fields() == CandidateOf(data)
  {
    var fullName := Scalar(data, FullName);
    var email := Scalar(data, Email);
    var phone := Scalar(data, Phone);
    var linkedinUrl := Scalar(data, LinkedInUrl);
    var location := Scalar(data, Location);
    var currentCompany := Scalar(data, CurrentCompany);
    var currentPosition := Scalar(data, CurrentPosition);
    var totalExperience := Scalar(data, TotalExperience);
    var experienceSummary := Scalar(data, ExperienceSummary);
    var skills := CleanListField(Lookup(data, Skills, VList([])));
    var education := CleanListField(Lookup(data, Education, VList([])));
    var certifications := CleanListField(Lookup(data, Certifications, VList([])));
    var languages := CleanListField(Lookup(data, Languages, VList([])));
    c := new GeminiParsedCandidate.Of(GeminiFields(
      fullName, email, phone, linkedinUrl, location, skills, experienceSummary, education,
      currentCompany, currentPosition, totalExperience, certifications, languages));
  }

  // ------------------------------------------------------ fence stripping

  const Fence := "```"
  const JsonFence := Fence + "json"

  /** The reply text with a Markdown fence removed: after "```json" every
    * "```json" and then every "```" goes; after a bare "```" every "```"
    * goes; the result is stripped. */
  function StripReplyFence(reply: string): (r: string)
    ensures !StartsWith(Strip(reply), Fence) ==> r == Strip(reply)
    ensures IsStripped(r)
  {
    var t := Strip(reply);
    LongerFence(t);
    if StartsWith(t, JsonFence) then Strip(Replace(Replace(t, JsonFence, ""), Fence, ""))
    else if StartsWith(t, Fence) then Strip(Replace(t, Fence, ""))
    else t
  }

  /** A text opening with "```json" opens with "```". */
  lemma LongerFence(t: string)
    ensures |Fence| == 3 && |JsonFence| == 7
    ensures StartsWith(t, JsonFence) ==> StartsWith(t, Fence)
  {
    if StartsWith(t, JsonFence) {
      assert JsonFence[..3] == Fence;
      assert t[..3] == t[..7][..3];
    }
  }

  /** "```" with nothing after it is removed whole; the longer "```json"
    * does not occur in it. */
  lemma FenceAlone()
    ensures Replace(Fence, Fence, "") == ""
    ensures Replace(Fence, JsonFence, "") == Fence
  {
    ReplaceHead(Fence, "");
    assert Fence + "" == Fence;
    assert !StartsWith(Fence, JsonFence);
    assert !StartsWith(Fence[1..], JsonFence) && !StartsWith(Fence[2..], JsonFence);
    assert Fence[1..][1..] == Fence[2..];
    assert Fence[2..][1..] == "";
  }

  /** A fenced JSON reply whose body has no backtick gives back its body,
    * stripped. */
  lemma FencedReply(body: string)
    requires '`' !in body
    ensures StripReplyFence(JsonFence + body + Fence) == Strip(body)
  {
    var s := JsonFence + body + Fence;
    assert s[0] == '`' && s[|s| - 1] == '`';
    StripOfStripped(s);
    assert s[..|JsonFence|] == JsonFence;
    assert s == JsonFence + (body + Fence);
    ReplaceHead(JsonFence, body + Fence);
    ReplaceSkips(body, Fence, JsonFence);
    FenceAlone();
    ReplaceSkips(body, Fence, Fence);
    assert body + "" == body;
  }

  /** `parse_resume_with_gemini` once the model has answered: an uninitialised
    * parser, a missing or empty reply, or one that does not decode to an
    * object gives the default candidate. */
  function GeminiCandidate(initialized: bool, reply: Option<string>, decode: string -> Option<map<JsonKey, Value>>): (c: GeminiFields)
    ensures !initialized || reply.None? || reply == Some("") ==> c == EmptyCandidate
  {
    if !initialized || reply.None? || reply.value == "" then EmptyCandidate
    else
      match decode(StripReplyFence(reply.value))
      case None => EmptyCandidate
      case Some(data) => CandidateOf(data)
  }

  /** A reply fenced as JSON whose body decodes to an object gives that
    * object's candidate. */
  lemma FencedJsonCandidate(body: string, decode: string -> Option<map<JsonKey, Value>>, data: map<JsonKey, Value>)
    requires '`' !in body && decode(Strip(body)) == Some(data)
    ensures GeminiCandidate(true, Some(JsonFence + body + Fence), decode) == CandidateOf(data)
  {
    FencedReply(body);
  }

  // ------------------------------------------------- validate_parsed_data

  const EducationTerms := ["university", "college", "bachelor", "master", "phd", "degree"]
  const CompanyTerms := ["inc", "corp", "ltd", "llc", "company"]

  /** A skill naming an education term. */
  predicate EducationSkill(skill: string)
  {
    ResumeParser.MentionsAny(Lower(skill), EducationTerms)
  }

  /** A skill naming a company-like term. */
  predicate CompanySkill(skill: string)
  {
    ResumeParser.MentionsAny(Lower(skill), CompanyTerms)
  }

  const BadEmail := "Invalid email format"
  const NotLinkedIn := "URL does not appear to be a LinkedIn profile"
  const NoProtocol := "URL missing protocol (http/https)"
  const BadPhone := "Phone number appears invalid"
  const EducationInSkills := "Education term found in skills: "
  const CompanyInSkills := "Company name might be in skills: "

  function EmailIssues(email: string): (r: seq<string>)
    ensures r != [] <==> email != "" && !EmailMatches(email)
  {
    if email != "" && !EmailMatches(email) then [BadEmail] else []
  }

  /** The two LinkedIn checks are independent: either, both or neither. */
  function LinkedInIssues(url: string): (r: seq<string>)
    ensures url == "" ==> r == []
    ensures url != "" ==> (NotLinkedIn in r <==> !Contains(Lower(url), "linkedin.com"))
    ensures url != "" ==> (NoProtocol in r <==> !StartsWith(url, "http://") && !StartsWith(url, "https://"))
    ensures |r| <= 2
  {
    if url == "" then []
    else
      (if !Contains(Lower(url), "linkedin.com") then [NotLinkedIn] else []) +
      (if !StartsWith(url, "http://") && !StartsWith(url, "https://") then [NoProtocol] else [])
  }

  function PhoneIssues(phone: string): (r: seq<string>)
    ensures r != [] <==> phone != "" && !HasThreeDigits(phone)
  {
    if phone != "" && !HasThreeDigits(phone) then [BadPhone] else []
  }

  /** The issues one skill raises: an education term, a company term, or both. */
  function OneSkillIssues(skill: string, edu: string -> bool, company: string -> bool): (r: seq<string>)
    ensures |r| == (if edu(skill) then 1 else 0) + (if company(skill) then 1 else 0)
  {
    (if edu(skill) then [EducationInSkills + skill] else []) +
    (if company(skill) then [CompanyInSkills + skill] else [])
  }

  /** The skills issues, skill by skill in order. */
  function SkillIssues(skills: seq<string>, edu: string -> bool, company: string -> bool): (r: seq<string>)
  {
    if |skills| == 0 then []
    else SkillIssues(skills[..|skills| - 1], edu, company) + OneSkillIssues(skills[|skills| - 1], edu, company)
  }

  /** There is one issue per skill naming an education term plus one per skill
    * naming a company term. */
  lemma {:induction false} SkillIssuesCount(skills: seq<string>, edu: string -> bool, company: string -> bool)
    ensures |SkillIssues(skills, edu, company)| == |Filter(skills, edu)| + |Filter(skills, company)|
    decreases |skills|
  {
    if |skills| > 0 {
      var n := |skills|;
      SkillIssuesCount(skills[..n - 1], edu, company);
      FilterSnoc(skills, n - 1, edu);
      FilterSnoc(skills, n - 1, company);
      assert skills[..n] == skills;
    }
  }

  /** `issues.setdefault(key, []).extend(xs)`, for a key not yet present. */
  function AddIssues(m: map<JsonKey, seq<string>>, key: JsonKey, xs: seq<string>): (r: map<JsonKey, seq<string>>)
    ensures xs == [] ==> r == m
    ensures xs != [] ==> r == m[key := xs]
  {
    if xs == [] then m else m[key := xs]
  }

  /** The issues before the skills are looked at. */
  function FieldIssues(f: GeminiFields): (r: map<JsonKey, seq<string>>)
    ensures Skills !in r
    ensures Email in r <==> EmailIssues(f.email) != []
    ensures LinkedInUrl in r <==> LinkedInIssues(f.linkedinUrl) != []
    ensures Phone in r <==> PhoneIssues(f.phone) != []
    ensures forall k :: k in r ==> r[k] != []
  {
    var one := AddIssues(map[], Email, EmailIssues(f.email));
    var two := AddIssues(one, LinkedInUrl, LinkedInIssues(f.linkedinUrl));
    AddIssues(two, Phone, PhoneIssues(f.phone))
  }

  /** `validate_parsed_data`: a key only for a field with at least one issue;
    * an empty field never has one. */
  function IssuesOf(f: GeminiFields): (r: map<JsonKey, seq<string>>)
    ensures Email in r <==> f.email != "" && !EmailMatches(f.email)
    ensures Phone in r <==> f.phone != "" && !HasThreeDigits(f.phone)
    ensures LinkedInUrl in r <==> LinkedInIssues(f.linkedinUrl) != []
    ensures Skills in r <==> SkillIssues(f.skills, EducationSkill, CompanySkill) != []
    ensures forall k :: k in r ==> r[k] != []
  {
    AddIssues(FieldIssues(f), Skills, SkillIssues(f.skills, EducationSkill, CompanySkill))
  }

  /** `validate_parsed_data`, with its loop over the skills. */
  method ValidateParsedData(f: GeminiFields) returns (issues: map<JsonKey, seq<string>>)
    ensures issues == IssuesOf(f)
  {
    issues := CheckEmail(map[], f.email);
    issues := CheckLinkedIn(issues, f.linkedinUrl);
    issues := CheckPhone(issues, f.phone);
    issues := AddSkillIssues(issues, f.skills, EducationSkill, CompanySkill);
  }

  /** The email check of `validate_parsed_data`. */
  method CheckEmail(m: map<JsonKey, seq<string>>, email: string) returns (issues: map<JsonKey, seq<string>>)
    requires Email !in m
    ensures issues == AddIssues(m, Email, EmailIssues(email))
  {
    issues := m;
    if email != "" {
      if !EmailMatches(email) {
        FirstIssue(m, Email, BadEmail);
        issues := SetDefaultAppend(issues, Email, BadEmail);
      }
    }
  }

  /** The two LinkedIn URL checks of `validate_parsed_data`. */
  method CheckLinkedIn(m: map<JsonKey, seq<string>>, url: string) returns (issues: map<JsonKey, seq<string>>)
    requires LinkedInUrl !in m
    ensures issues == AddIssues(m, LinkedInUrl, LinkedInIssues(url))
  {
    issues := m;
    if url != "" {
      if !Contains(Lower(url), "linkedin.com") {
        issues := SetDefaultAppend(issues, LinkedInUrl, NotLinkedIn);
      }
      if !StartsWith(url, "http://") && !StartsWith(url, "https://") {
        issues := SetDefaultAppend(issues, LinkedInUrl, NoProtocol);
      }
      LinkedInAppends(m, url);
    }
  }

  /** The phone check of `validate_parsed_data`. */
  method CheckPhone(m: map<JsonKey, seq<string>>, phone: string) returns (issues: map<JsonKey, seq<string>>)
    requires Phone !in m
    ensures issues == AddIssues(m, Phone, PhoneIssues(phone))
  {
    issues := m;
    if phone != "" {
      if !HasThreeDigits(phone) {
        FirstIssue(m, Phone, BadPhone);
        issues := SetDefaultAppend(issues, Phone, BadPhone);
      }
    }
  }


  /** The two LinkedIn appends build the LinkedIn issues under their key. */
  lemma LinkedInAppends(m: map<JsonKey, seq<string>>, url: string)
    requires LinkedInUrl !in m && url != ""
    ensures var m1 := if !Contains(Lower(url), "linkedin.com") then SetDefaultAppend(m, LinkedInUrl, NotLinkedIn) else m;
            var m2 := if !StartsWith(url, "http://") && !StartsWith(url, "https://") then SetDefaultAppend(m1, LinkedInUrl, NoProtocol) else m1;
            m2 == AddIssues(m, LinkedInUrl, LinkedInIssues(url))
  {
    var one := if !Contains(Lower(url), "linkedin.com") then [NotLinkedIn] else [];
    var two := if !StartsWith(url, "http://") && !StartsWith(url, "https://") then [NoProtocol] else [];
    assert LinkedInIssues(url) == one + two;
    AppendIssue(m, LinkedInUrl, [], NotLinkedIn);
    AppendIssue(m, LinkedInUrl, one, NoProtocol);
    assert [] + [NotLinkedIn] == [NotLinkedIn];
    assert one + [] == one;
  }

  /** `setdefault(key, []).append(x)` on a map built by AddIssues. */
  lemma AppendIssue(m: map<JsonKey, seq<string>>, key: JsonKey, xs: seq<string>, x: string)
    requires key !in m
    ensures SetDefaultAppend(AddIssues(m, key, xs), key, x) == AddIssues(m, key, xs + [x])
  {
    if xs == [] {
      assert xs + [x] == [x];
    }
  }

  /** The first `setdefault(key, []).append(x)` for a key. */
  lemma FirstIssue(m: map<JsonKey, seq<string>>, key: JsonKey, x: string)
    requires key !in m
    ensures SetDefaultAppend(m, key, x) == AddIssues(m, key, [x])
  {
    assert [] + [x] == [x];
  }

  /** The skills loop: each skill may add an education and a company issue. */
  method AddSkillIssues(base: map<JsonKey, seq<string>>, skills: seq<string>, edu: string -> bool, company: string -> bool)
    returns (issues: map<JsonKey, seq<string>>)
    requires Skills !in base
    ensures issues == AddIssues(base, Skills, SkillIssues(skills, edu, company))
  {
    issues := base;
    for i := 0 to |skills|
      invariant issues == AddIssues(base, Skills, SkillIssues(skills[..i], edu, company))
    {
      assert skills[..i + 1][..i] == skills[..i];
      var skill := skills[i];
      ghost var done := SkillIssues(skills[..i], edu, company);
      ghost var mid := done;
      if edu(skill) {
        AppendIssue(base, Skills, done, EducationInSkills + skill);
        issues := SetDefaultAppend(issues, Skills, EducationInSkills + skill);
        mid := done + [EducationInSkills + skill];
      }
      ghost var end := mid;
      if company(skill) {
        AppendIssue(base, Skills, mid, CompanyInSkills + skill);
        issues := SetDefaultAppend(issues, Skills, CompanyInSkills + skill);
        end := mid + [CompanyInSkills + skill];
      }
      assert end == done + OneSkillIssues(skill, edu, company);
    }
    assert skills[..|skills|] == skills;
  }

  /** `issues.setdefault(key, []).append(x)`. */
  function SetDefaultAppend(m: map<JsonKey, seq<string>>, key: JsonKey, x: string): (r: map<JsonKey, seq<string>>)
    ensures key in r && r[key] == (if key in m then m[key] else []) + [x]
    ensures forall k :: k != key ==> (k in r <==> k in m) && (k in m ==> r[k] == m[k])
  {
    m[key := (if key in m then m[key] else []) + [x]]
  }

  /** One skill can raise two issues. */
  lemma TwoIssuesForOneSkill(skill: string)
    requires EducationSkill(skill) && CompanySkill(skill)
    ensures |SkillIssues([skill], EducationSkill, CompanySkill)| == 2
  {
    assert [skill][..0] == [];
  }

  // ------------------------------------------------------- parse_resume

  /** The dictionary form of a parsed candidate (`convert_to_dict`). */
  datatype CandidateDict = CandidateDict(
    fullName: string, email: string, phone: string, linkedinUrl: string, location: string,
    company: string, position: string, skills: string, experienceSummary: string,
    totalExperience: string, education: string, certifications: string, languages: string)

  /** `sep.join(xs) if xs else ''`. */
  function JoinedOrEmpty(xs: seq<string>, sep: string): (r: string)
    ensures xs == [] ==> r == ""
    ensures |xs| == 1 ==> r == xs[0]
  {
    if xs != [] then Join(xs, sep) else ""
  }

  /** `convert_to_dict`: lists joined with ", ", education with " | ". */
  function ConvertToDict(c: GeminiFields): (d: CandidateDict)
    ensures c.skills == [] ==> d.skills == ""
    ensures c.education == [] ==> d.education == ""
    ensures d.fullName == c.fullName && d.company == c.currentCompany && d.position == c.currentPosition
  {
    CandidateDict(c.fullName, c.email, c.phone, c.linkedinUrl, c.location, c.currentCompany, c.currentPosition,
                  JoinedOrEmpty(c.skills, ", "), c.experienceSummary, c.totalExperience,
                  JoinedOrEmpty(c.education, " | "), JoinedOrEmpty(c.certifications, ", "),
                  JoinedOrEmpty(c.languages, ", "))
  }

  /** A list of clean items without commas, written as the dictionary does,
    * reads back through `clean_list_field` unchanged. */
  lemma DictListRoundTrip(xs: seq<string>)
    requires |xs| <= 20
    requires forall k :: 0 <= k < |xs| ==> LongItem(xs[k]) && IsStripped(xs[k]) && ',' !in xs[k]
    ensures ListField(VStr(JoinedOrEmpty(xs, ", "))) == xs
  {
    if |xs| > 0 {
      var s := Join(xs, ", ");
      assert s != "" by {
        assert forall p :: p in xs ==> p != "" && IsStripped(p);
        JoinStripped(xs, ", ");
      }
      calc {
        ListField(VStr(s));
        { StringField(s); }
        Take(Filter(Stripped(Split(s, ',')), LongItem), 20);
        { SplitCommaSpace(xs); }
        Take(Filter(xs, LongItem), 20);
        { assert forall x :: x in xs ==> LongItem(x);
          FilterAll(xs, LongItem); }
        Take(xs, 20);
      }
    }
  }

  /** `convert_traditional_to_dict`: certifications and languages are always empty. */
  function ConvertTraditionalToDict(c: ResumeParser.CandidateFields): (d: CandidateDict)
    ensures d.certifications == "" && d.languages == ""
    ensures c.skills == [] ==> d.skills == ""
    ensures d.fullName == c.fullName && d.totalExperience == c.totalExperience
  {
    CandidateDict(c.fullName, c.email, c.phone, c.linkedinUrl, c.location, c.currentCompany, c.currentPosition,
                  JoinedOrEmpty(c.skills, ", "), c.experienceSummary, c.totalExperience,
                  JoinedOrEmpty(c.education, " | "), "", "")
  }

  /** The issues of a result: the validation map of the AI path, or notes. */
  datatype ResultIssues = FieldIssuesOf(m: map<JsonKey, seq<string>>) | Notes(notes: seq<string>)

  /** The `method` entry of a result: "gemini", "traditional" or "none". */
  datatype ParseMethod = Gemini | Traditional | NoMethod

  /** The result dictionary of `parse_resume`. */
  datatype ParseResult = ParseResult(success: bool, parsedBy: ParseMethod, data: Option<CandidateDict>,
                                     issues: ResultIssues, rawText: string)

  const TraditionalNote := "Used traditional parser - data may need manual review"
  const BothFailed := "Both Gemini AI and traditional parsing failed"

  /** `resume_text[:500] + '...'` for a text over 500 characters. */
  function RawText(text: string): (r: string)
    ensures |text| <= 500 ==> r == text
    ensures |text| > 500 ==> |r| == 503 && r[..500] == text[..500] && r[500..] == "..."
  {
    if |text| > 500 then text[..500] + "..." else text
  }

  /** The result of `parse_resume`. `gemini` is what the AI parser gave (when
    * it was asked); `traditional` is the traditional parser's result, `None`
    * when it is unavailable or raised. */
  function ParseOutcome(text: string, useGemini: bool, initialized: bool, gemini: GeminiFields,
                        traditional: Option<ResumeParser.CandidateFields>): (r: ParseResult)
    ensures r.success <==> !r.parsedBy.NoMethod?
    ensures r.parsedBy.Gemini? <==> useGemini && initialized && gemini.fullName != ""
    ensures r.parsedBy.Traditional? ==> traditional.Some? && r.issues == Notes([TraditionalNote])
    ensures r.parsedBy.NoMethod? <==> (!useGemini || !initialized || gemini.fullName == "") && traditional.None?
    ensures r.parsedBy.NoMethod? ==> r.issues == Notes([BothFailed]) && r.data.None?
    ensures r.rawText == RawText(text)
  {
    if useGemini && initialized && gemini.fullName != "" then
      ParseResult(true, Gemini, Some(ConvertToDict(gemini)), FieldIssuesOf(IssuesOf(gemini)), RawText(text))
    else if traditional.Some? then
      ParseResult(true, Traditional, Some(ConvertTraditionalToDict(traditional.value)), Notes([TraditionalNote]), RawText(text))
    else
      ParseResult(false, NoMethod, None, Notes([BothFailed]), RawText(text))
  }

  /** `HybridResumeParser.parse_resume`: the AI result is taken only when it
    * has a name; otherwise the traditional parser's. */
  method ParseResume(text: string, useGemini: bool, initialized: bool, gemini: GeminiFields,
                     traditional: Option<ResumeParser.CandidateFields>) returns (result: ParseResult)
    ensures result == ParseOutcome(text, useGemini, initialized, gemini, traditional)
  {
    result := ParseResult(false, NoMethod, None, Notes([]), RawText(text));
    if useGemini && initialized {
      if gemini.fullName != "" {
        var issues := ValidateParsedData(gemini);
        result := result.(success := true, parsedBy := Gemini, data := Some(ConvertToDict(gemini)),
                          issues := FieldIssuesOf(issues));
        return;
      }
    }
    if traditional.Some? {
      result := result.(success := true, parsedBy := Traditional,
                        data := Some(ConvertTraditionalToDict(traditional.value)), issues := Notes([TraditionalNote]));
      return;
    }
    result := result.(issues := Notes([BothFailed]));
  }
}
