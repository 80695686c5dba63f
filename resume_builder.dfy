/** The resume builder: the checks on an uploaded file, the fallback from the
  * hybrid parser to the traditional one, the cleaning of the parsed fields
  * into the builder's record, the contact line of the generated PDF and the
  * name the generated file is saved under. */
module ResumeBuilder {
  import opened Wrappers
  import opened Text
  import opened Seqs
  import opened Patterns
  import opened PyValue
  import GeminiParser
  import ResumeParser

  // ------------------------------------------------------- _extract_years

  /** `_extract_years`: the number in front of the first "year" or "years"
    * (any case, an optional "+" and spaces between), 0 when there is none. */
  function ExtractYears(text: string): (n: nat)
    ensures text == "" ==> n == 0
    ensures SearchYears(text).None? ==> n == 0
  {
    if text == "" then 0
    else match SearchYears(text)
      case None => 0
      case Some(digits) => DigitsValue(digits)
  }

  /** What the years pattern needs of the text after the digits. */
  lemma YearsTail(tail: string)
    requires tail == " years"
    ensures |tail| == 6 && tail[0] == ' ' && !IsDigit(tail[0]) && tail[0] != '+' && IsSpace(tail[0])
    ensures !IsSpace(tail[1]) && Lower(tail[1..5]) == "year"
  {
    assert tail[1..5] == "year";
  }

  /** A count written as digits followed by " years" reads back as that count. */
  lemma YearsOfCount(d: string, tail: string)
    requires IsDigits(d) && tail == " years"
    ensures ExtractYears(d + tail) == DigitsValue(d)
  {
    var s := d + tail;
    YearsTail(tail);
    assert s[..|d|] == d;
    assert s[|d|] == tail[0];
    var q := DigitRunEnd(s, 0);
    assert forall k :: 0 <= k < |d| ==> s[k] == d[k];
    assert !IsDigit(s[|d|]);
    assert q == |d|;
    var u := SpaceRunEnd(s, q);
    assert s[|d| + 1] == tail[1];
    assert IsSpace(s[|d|]) && !IsSpace(s[|d| + 1]);
    assert u == |d| + 1;
    assert s[u..u + 4] == tail[1..5];
    assert MatchesCI(s, u, "year");
    assert YearsAt(s, 0) == Some(|d|);
    assert SearchYears(s) == Some(s[0..|d|]);
  }

  /** `str(n) + " years"` reads back as `n`. */
  lemma YearsOfNat(n: nat)
    ensures ExtractYears(NatToString(n) + " years") == n
  {
    YearsOfCount(NatToString(n), " years");
    NatToStringRoundTrip(n);
  }

  /** The traditional parser's experience text reads back as the number it found. */
  lemma TraditionalYears(t: string)
    ensures ExtractYears(ResumeParser.ExtractExperienceYears(t)) ==
              match SearchExperienceYears(t) case None => 0 case Some(d) => DigitsValue(d)
  {
    match SearchExperienceYears(t)
    case None =>
    case Some(d) =>
      assert ResumeParser.ExtractExperienceYears(t) == d + " years";
      YearsOfCount(d, " years");
  }

  // ----------------------------------------- _clean_skills / _clean_education

  const SkillsLimit := 15
  const EducationLimit := 3

  /** The stripped, non-empty pieces, at most `limit` of them, in order. */
  function Cleaned(pieces: seq<string>, limit: nat): (r: seq<string>)
    ensures |r| <= limit && |r| <= |pieces|
    ensures forall k :: 0 <= k < |r| ==> r[k] != "" && IsStripped(r[k])
    ensures forall k :: 0 <= k < |r| ==> r[k] in Stripped(pieces)
  {
    var kept := Filter(Stripped(pieces), GeminiParser.NonEmpty);
    var r := Take(kept, limit);
    assert forall k :: 0 <= k < |r| ==> r[k] == kept[k];
    r
  }

  /** Pieces that are already stripped, non-empty and few enough are kept as they are. */
  lemma CleanedOfClean(pieces: seq<string>, limit: nat)
    requires forall k :: 0 <= k < |pieces| ==> pieces[k] != "" && IsStripped(pieces[k])
    ensures Cleaned(pieces, limit) == Take(pieces, limit)
  {
    assert Stripped(pieces) == pieces by {
      forall k | 0 <= k < |pieces|
        ensures Stripped(pieces)[k] == pieces[k]
      {
        StrippedAt(pieces, k);
        StripOfStripped(pieces[k]);
      }
    }
    assert forall x :: x in pieces ==> GeminiParser.NonEmpty(x);
    FilterAll(pieces, GeminiParser.NonEmpty);
  }

  /** A list item that is truthy but not a string: `.strip()` raises on it. */
  predicate Raises(items: seq<Value>)
  {
    exists k :: 0 <= k < |items| && Truthy(items[k]) && !items[k].VStr?
  }

  /** The strings of a list, in order; the falsy non-strings are skipped.
    * `None` when an item would make `.strip()` raise. */
  function ListTexts(items: seq<Value>): (r: Option<seq<string>>)
    ensures r.None? <==> Raises(items)
    ensures r.Some? ==> |r.value| <= |items|
    decreases |items|
  {
    if |items| == 0 then Some([])
    else
      var init := items[..|items| - 1];
      var x := items[|items| - 1];
      assert forall k :: 0 <= k < |init| ==> init[k] == items[k];
      match ListTexts(init)
      case None => None
      case Some(prev) =>
        if x.VStr? then Some(prev + [x.s])
        else if Truthy(x) then None
        else Some(prev)
  }

  /** A list of strings gives back its strings. */
  lemma {:induction false} ListTextsOfStrings(xs: seq<string>)
    ensures ListTexts(GeminiParser.AsValues(xs)) == Some(xs)
    decreases |xs|
  {
    if |xs| > 0 {
      var init := xs[..|xs| - 1];
      ListTextsOfStrings(init);
      assert GeminiParser.AsValues(xs)[..|xs| - 1] == GeminiParser.AsValues(init);
      assert init + [xs[|xs| - 1]] == xs;
    }
  }

  /** The pieces of an education string: "|" and newlines both separate. */
  function EducationPieces(s: string): (r: seq<string>)
    ensures forall p :: p in r ==> '|' !in p && '\n' !in p
  {
    var t := ReplaceChar(s, '|', '\n');
    var r := Split(t, '\n');
    assert '|' !in t;
    forall p | p in r
      ensures '|' !in p
    {
      var k :| 0 <= k < |r| && r[k] == p;
      SplitPiece(t, '\n', k, '|');
    }
    r
  }

  /** `_clean_skills` (a falsy value gives no skills). `None` stands for the
    * `AttributeError` a truthy non-string list item raises. */
  function CleanSkills(v: Value): (r: Option<seq<string>>)
    ensures !Truthy(v) ==> r == Some([])
    ensures r.None? <==> v.VList? && Raises(v.items)
    ensures !(v.VList? || v.VStr?) ==> r == Some([])
    ensures r.Some? ==> |r.value| <= SkillsLimit
    ensures r.Some? ==> forall k :: 0 <= k < |r.value| ==> r.value[k] != "" && IsStripped(r.value[k])
  {
    if !Truthy(v) then Some([])
    else if v.VList? then
      match ListTexts(v.items)
      case None => None
      case Some(texts) => Some(Cleaned(texts, SkillsLimit))
    else if v.VStr? then Some(Cleaned(Split(v.s, ','), SkillsLimit))
    else Some([])
  }

  /** `_clean_education`: as `_clean_skills`, but strings split at "|" and
    * at newlines, and three items at most. */
  function CleanEducation(v: Value): (r: Option<seq<string>>)
    ensures !Truthy(v) ==> r == Some([])
    ensures r.None? <==> v.VList? && Raises(v.items)
    ensures !(v.VList? || v.VStr?) ==> r == Some([])
    ensures r.Some? ==> |r.value| <= EducationLimit
    ensures r.Some? ==> forall k :: 0 <= k < |r.value| ==> r.value[k] != "" && IsStripped(r.value[k])
    ensures v.VStr? && r.Some? ==> forall k :: 0 <= k < |r.value| ==> '|' !in r.value[k]
  {
    if !Truthy(v) then Some([])
    else if v.VList? then
      match ListTexts(v.items)
      case None => None
      case Some(texts) => Some(Cleaned(texts, EducationLimit))
    else if v.VStr? then
      var pieces := EducationPieces(v.s);
      var r := Cleaned(pieces, EducationLimit);
      forall k | 0 <= k < |r|
        ensures '|' !in r[k]
      {
        var j :| 0 <= j < |pieces| && Stripped(pieces)[j] == r[k];
        StrippedAt(pieces, j);
        StripChars(pieces[j]);
      }
      Some(r)
    else Some([])
  }

  /** A list of clean skills loses only what lies beyond the fifteenth. */
  lemma CleanSkillsOfList(xs: seq<string>)
    requires forall k :: 0 <= k < |xs| ==> xs[k] != "" && IsStripped(xs[k])
    ensures CleanSkills(VList(GeminiParser.AsValues(xs))) == Some(Take(xs, SkillsLimit))
  {
    ListTextsOfStrings(xs);
    if xs != [] {
      assert Truthy(VList(GeminiParser.AsValues(xs)));
    }
    CleanedOfClean(xs, SkillsLimit);
  }

  /** Cleaning a cleaned skill list again changes nothing. */
  lemma CleanSkillsIdempotent(v: Value)
    requires CleanSkills(v).Some?
    ensures CleanSkills(VList(GeminiParser.AsValues(CleanSkills(v).value))) == CleanSkills(v)
  {
    var xs := CleanSkills(v).value;
    assert |xs| <= SkillsLimit;
    CleanSkillsOfList(xs);
    var t := Take(xs, SkillsLimit);
    assert |t| == |xs|;
    assert t == xs[..|xs|] == xs;
  }

  /** Skills written as the hybrid parser's dictionary writes them (joined with
    * ", ") come back in order, the first fifteen of them. */
  lemma SkillsRoundTrip(xs: seq<string>)
    requires forall k :: 0 <= k < |xs| ==> xs[k] != "" && IsStripped(xs[k]) && ',' !in xs[k]
    ensures CleanSkills(VStr(GeminiParser.JoinedOrEmpty(xs, ", "))) == Some(Take(xs, SkillsLimit))
  {
    if |xs| > 0 {
      var s := Join(xs, ", ");
      assert s != "" by {
        assert forall p :: p in xs ==> p != "" && IsStripped(p);
        JoinStripped(xs, ", ");
      }
      SplitCommaSpace(xs);
      CleanedOfClean(xs, SkillsLimit);
      assert Cleaned(Split(s, ','), SkillsLimit) == Cleaned(xs, SkillsLimit) by {
        CleanedOfStripped(Split(s, ','), xs, SkillsLimit);
      }
    }
  }

  /** `Cleaned` looks only at the stripped pieces. */
  lemma CleanedOfStripped(pieces: seq<string>, xs: seq<string>, limit: nat)
    requires Stripped(pieces) == xs
    ensures Cleaned(pieces, limit) == Cleaned(xs, limit)
  {
    forall k | 0 <= k < |xs|
      ensures Stripped(xs)[k] == xs[k]
    {
      StrippedAt(xs, k);
      StrippedAt(pieces, k);
      StripIdempotent(pieces[k]);
    }
    assert Stripped(xs) == xs;
  }

  /** The pads around "|" once it has become a newline. */
  lemma BarPads() returns (a: string, b: string)
    ensures AllSpace(a) && AllSpace(b) && '\n' !in a && '\n' !in b
    ensures a + ['\n'] + b == ReplaceChar(" | ", '|', '\n')
  {
    a, b := " ", " ";
  }

  /** Education written as the hybrid parser's dictionary writes it (joined
    * with " | ") comes back in order, the first three entries. */
  lemma EducationRoundTrip(xs: seq<string>)
    requires forall k :: 0 <= k < |xs| ==> xs[k] != "" && IsStripped(xs[k]) && '|' !in xs[k] && '\n' !in xs[k]
    ensures CleanEducation(VStr(GeminiParser.JoinedOrEmpty(xs, " | "))) == Some(Take(xs, EducationLimit))
  {
    if |xs| > 0 {
      var s := Join(xs, " | ");
      assert s != "" by {
        assert forall p :: p in xs ==> p != "" && IsStripped(p);
        JoinStripped(xs, " | ");
      }
      ReplaceCharJoin(xs, " | ", '|', '\n');
      var a, b := BarPads();
      SplitFramed(xs, a, '\n', b);
      CleanedOfStripped(EducationPieces(s), xs, EducationLimit);
      CleanedOfClean(xs, EducationLimit);
    }
  }

  // -------------------------------------------------- parse_resume_text

  /** The `parsing_method` entry: what the hybrid parser reported, the
    * traditional parser on its own, or "failed". */
  datatype ParsingMethod = ByGemini | ByTraditional | ByNone | Failed

  function MethodOf(m: GeminiParser.ParseMethod): (r: ParsingMethod)
    ensures r != Failed
    ensures m.Gemini? <==> r == ByGemini
    ensures m.Traditional? <==> r == ByTraditional
  {
    match m
    case Gemini => ByGemini
    case Traditional => ByTraditional
    case NoMethod => ByNone
  }

  /** The builder's record of a parsed resume (without `processed_at`). */
  datatype ResumeData = ResumeData(
    fullName: string, email: string, phone: string, currentCompany: string, currentPosition: string,
    experienceYears: nat, skills: seq<string>, summary: string, education: seq<string>,
    certifications: seq<string>, languages: seq<string>, location: string, linkedinUrl: string,
    parsingMethod: ParsingMethod, parsingIssues: GeminiParser.ResultIssues)

  const UnknownCandidate := "Unknown Candidate"
  const DefaultSummary := "Experienced professional with diverse background."
  const MinimalSummary := "Professional candidate."
  const AllFailed := "All parsing methods failed"

  /** What `data.get(key, default)` gives on an empty result dictionary. */
  const EmptyDict := GeminiParser.CandidateDict(UnknownCandidate, "", "", "", "", "", "", "", DefaultSummary, "", "", "", "")

  /** `clean_skills` of a joined string, which never raises. */
  function TextSkills(s: string): (r: seq<string>)
    ensures |r| <= SkillsLimit
  {
    CleanSkills(VStr(s)).value
  }

  /** `clean_education` of a joined string, which never raises. */
  function TextEducation(s: string): (r: seq<string>)
    ensures |r| <= EducationLimit
  {
    CleanEducation(VStr(s)).value
  }

  /** The record built from a successful hybrid result. */
  function FromHybrid(result: GeminiParser.ParseResult): (r: ResumeData)
    ensures r.parsingMethod == MethodOf(result.parsedBy) && r.parsingIssues == result.issues
    ensures |r.skills| <= SkillsLimit && |r.education| <= EducationLimit
    ensures |r.certifications| <= SkillsLimit && |r.languages| <= SkillsLimit
    ensures result.data.Some? ==> r.fullName == result.data.value.fullName && r.summary == result.data.value.experienceSummary
    ensures result.data.None? ==> r.fullName == UnknownCandidate && r.skills == [] && r.experienceYears == 0
  {
    var d := if result.data.Some? then result.data.value else EmptyDict;
    ResumeData(d.fullName, d.email, d.phone, d.company, d.position, ExtractYears(d.totalExperience),
               TextSkills(d.skills), d.experienceSummary, TextEducation(d.education),
               TextSkills(d.certifications), TextSkills(d.languages),
               d.location, d.linkedinUrl, MethodOf(result.parsedBy), result.issues)
  }

  /** `x or default` on a string. */
  function OrDefault(x: string, default: string): (r: string)
    ensures x != "" ==> r == x
    ensures x == "" ==> r == default
  {
    if x != "" then x else default
  }

  /** The record built from the traditional parser alone. */
  function FromTraditional(c: ResumeParser.CandidateFields): (r: ResumeData)
    ensures r.parsingMethod == ByTraditional && r.parsingIssues == GeminiParser.Notes([])
    ensures r.certifications == [] && r.languages == []
    ensures r.skills == c.skills && r.education == c.education
    ensures r.fullName != "" && r.summary != ""
    ensures r.experienceYears == ExtractYears(c.totalExperience)
  {
    ResumeData(OrDefault(c.fullName, UnknownCandidate), c.email, c.phone, c.currentCompany, c.currentPosition,
               ExtractYears(c.totalExperience), c.skills, OrDefault(c.experienceSummary, DefaultSummary),
               c.education, [], [], c.location, c.linkedinUrl, ByTraditional, GeminiParser.Notes([]))
  }

  /** The fixed record when every parser failed. */
  const FailedData := ResumeData(UnknownCandidate, "", "", "", "", 0, [], MinimalSummary, [], [], [], "", "",
                                 Failed, GeminiParser.Notes([AllFailed]))

  /** `parse_resume_text`. `hybrid` is the hybrid parser's result, `None` when
    * there is no hybrid parser (no API key) or it raised; `traditional` is
    * the traditional parser's fields, `None` when it is missing or raised. */
  function ParseResumeText(hybrid: Option<GeminiParser.ParseResult>,
                           traditional: Option<ResumeParser.CandidateFields>): (r: ResumeData)
    ensures r.parsingMethod == Failed <==> (hybrid.None? || !hybrid.value.success) && traditional.None?
    ensures r.parsingMethod == Failed ==> r.experienceYears == 0 && r.skills == [] && r.fullName == UnknownCandidate
    ensures r.parsingMethod == Failed ==> r.parsingIssues == GeminiParser.Notes([AllFailed])
    ensures hybrid.Some? && hybrid.value.success ==> r.parsingIssues == hybrid.value.issues
    ensures (hybrid.None? || !hybrid.value.success) && traditional.Some? ==>
              r.certifications == [] && r.languages == [] && r.skills == traditional.value.skills
  {
    if hybrid.Some? && hybrid.value.success then FromHybrid(hybrid.value)
    else if traditional.Some? then FromTraditional(traditional.value)
    else FailedData
  }

  /** The traditional path never yields certifications or languages: neither
    * when the builder falls back to the traditional parser, nor when the
    * hybrid parser falls back to it. */
  lemma TraditionalHasNoCertifications(text: string, useGemini: bool, initialized: bool,
                                       g: GeminiParser.GeminiFields,
                                       inner: Option<ResumeParser.CandidateFields>,
                                       own: Option<ResumeParser.CandidateFields>)
    ensures var r := ParseResumeText(Some(GeminiParser.ParseOutcome(text, useGemini, initialized, g, inner)), own);
            r.parsingMethod == ByTraditional ==> r.certifications == [] && r.languages == []
  {
  }

  /** When the AI parser succeeds, its clean lists come through: the first
    * fifteen skills and the first three education entries, in order. */
  lemma GeminiListsKept(text: string, g: GeminiParser.GeminiFields,
                        inner: Option<ResumeParser.CandidateFields>,
                        own: Option<ResumeParser.CandidateFields>)
    requires g.fullName != ""
    requires forall k :: 0 <= k < |g.skills| ==> g.skills[k] != "" && IsStripped(g.skills[k]) && ',' !in g.skills[k]
    requires forall k :: 0 <= k < |g.education| ==>
               g.education[k] != "" && IsStripped(g.education[k]) && '|' !in g.education[k] && '\n' !in g.education[k]
    ensures var r := ParseResumeText(Some(GeminiParser.ParseOutcome(text, true, true, g, inner)), own);
            r.parsingMethod == ByGemini && r.fullName == g.fullName &&
            r.skills == Take(g.skills, SkillsLimit) && r.education == Take(g.education, EducationLimit)
  {
    SkillsRoundTrip(g.skills);
    EducationRoundTrip(g.education);
  }

  // ------------------------------------------------------- validate_file

  const SupportedFormats := [".pdf", ".docx", ".doc", ".txt"]
  const MaxFileSize := 10 * 1024 * 1024

  const UnsupportedFormat := "Unsupported format. Supported: " + Join(SupportedFormats, ", ")
  const FileEmpty := "File is empty"
  const FileTooLarge := "File too large (max 10MB)"
  const FileValid := "File is valid"

  /** The last position of `c` in `s`. */
  function LastIndex(s: string, c: char): (r: Option<nat>)
    ensures r.None? <==> c !in s
    ensures r.Some? ==> r.value < |s| && s[r.value] == c && forall j :: r.value < j < |s| ==> s[j] != c
    decreases |s|
  {
    if |s| == 0 then None
    else if s[|s| - 1] == c then Some(|s| - 1)
    else
      var r := LastIndex(s[..|s| - 1], c);
      assert c in s ==> c in s[..|s| - 1] by {
        if c in s {
          var i :| 0 <= i < |s| && s[i] == c;
          assert s[..|s| - 1][i] == c;
        }
      }
      r
  }

  /** The last component of a POSIX path. */
  function BaseName(path: string): (r: string)
    ensures '/' !in r
    ensures '/' !in path ==> r == path
  {
    match LastIndex(path, '/')
    case None => path
    case Some(i) =>
      var r := path[i + 1..];
      assert forall j :: 0 <= j < |r| ==> r[j] == path[i + 1 + j];
      r
  }

  /** `Path(filename).suffix`: from the last "." of the last component, when
    * that dot is neither its first nor its last character. */
  function Suffix(filename: string): (r: string)
    ensures r == "" || (|r| >= 2 && r[0] == '.' && '.' !in r[1..] && '/' !in r)
  {
    var name := BaseName(filename);
    match LastIndex(name, '.')
    case Some(i) =>
      if 0 < i < |name| - 1 then
        assert forall c :: c in name[i..][1..] ==> c != '.';
        name[i..]
      else ""
    case None => ""
  }

  /** A name with one dot inside has the suffix from that dot. */
  lemma SuffixOf(base: string, ext: string)
    requires base != "" && '.' !in base && '/' !in base
    requires |ext| >= 2 && ext[0] == '.' && '.' !in ext[1..] && '/' !in ext
    ensures Suffix(base + ext) == ext
  {
    var s := base + ext;
    assert '/' !in s by {
      assert forall i :: 0 <= i < |s| ==> s[i] == (if i < |base| then base[i] else ext[i - |base|]);
    }
    assert s[|base|] == '.';
    var i := LastIndex(s, '.').value;
    assert forall j :: 0 <= j < |base| ==> s[j] == base[j];
    assert forall j :: |base| < j < |s| ==> s[j] == ext[1..][j - |base| - 1];
    assert i == |base|;
    assert s[i..] == ext;
  }

  /** A dot file such as ".pdf" has no suffix. */
  lemma DotFileHasNoSuffix(ext: string)
    requires |ext| >= 2 && ext[0] == '.' && '.' !in ext[1..] && '/' !in ext
    ensures Suffix(ext) == ""
  {
    assert forall j :: 0 < j < |ext| ==> ext[j] == ext[1..][j - 1];
    assert LastIndex(ext, '.') == Some(0);
  }

  /** `validate_file`, on the size of the content: the format first, then
    * emptiness, then the 10 MiB limit (a file of exactly 10 MiB passes). */
  function ValidateFile(size: nat, filename: string): (r: (bool, string))
    ensures r.0 <==> Lower(Suffix(filename)) in SupportedFormats && 0 < size <= MaxFileSize
    ensures Lower(Suffix(filename)) !in SupportedFormats ==> r.1 == UnsupportedFormat
    ensures Lower(Suffix(filename)) in SupportedFormats && size == 0 ==> r.1 == FileEmpty
    ensures Lower(Suffix(filename)) in SupportedFormats && size > MaxFileSize ==> r.1 == FileTooLarge
    ensures r.0 ==> r.1 == FileValid
  {
    if Lower(Suffix(filename)) !in SupportedFormats then (false, UnsupportedFormat)
    else if size == 0 then (false, FileEmpty)
    else if size > MaxFileSize then (false, FileTooLarge)
    else (true, FileValid)
  }

  // ------------------------------------------------------- process_resume

  const ValidationPrefix := "File validation failed: "

  /** Why `process_resume` raises: the file check failed (with the message),
    * the extracted text is blank, or the extraction itself raised. */
  datatype ProcessError = Invalid(message: string) | NoText | ExtractionFailed

  /** The parsed record with the file's metadata added. */
  datatype ProcessedResume = ProcessedResume(data: ResumeData, originalFilename: string, fileSize: nat, textLength: nat)

  /** `process_resume`: `extracted` is the extractor's text (`None` when it
    * raised); `hybrid` and `traditional` are what the parsers give for it. */
  function ProcessResume(size: nat, filename: string, extracted: Option<string>,
                         hybrid: Option<GeminiParser.ParseResult>,
                         traditional: Option<ResumeParser.CandidateFields>): (r: Result<ProcessedResume, ProcessError>)
    ensures r.Failure? && r.error.Invalid? <==> !ValidateFile(size, filename).0
    ensures r.Failure? && r.error.Invalid? ==> r.error.message == ValidationPrefix + ValidateFile(size, filename).1
    ensures r.Success? <==> ValidateFile(size, filename).0 && extracted.Some? && Strip(extracted.value) != ""
    ensures r.Success? ==> r.value.fileSize == size && 0 < size <= MaxFileSize && r.value.originalFilename == filename
    ensures r.Success? ==> r.value.textLength == |extracted.value| && r.value.data == ParseResumeText(hybrid, traditional)
  {
    var (ok, message) := ValidateFile(size, filename);
    if !ok then Failure(Invalid(ValidationPrefix + message))
    else match extracted
      case None => Failure(ExtractionFailed)
      case Some(text) =>
        if Strip(text) == "" then Failure(NoText)
        else Success(ProcessedResume(ParseResumeText(hybrid, traditional), filename, size, |text|))
  }

  // --------------------------------------------- generate_pdf: contact line

  /** The LinkedIn URL without its scheme (every "https://", then every "http://", removed). */
  function StripScheme(url: string): (r: string)
  {
    Replace(Replace(url, "https://", ""), "http://", "")
  }

  /** An "https" URL loses its scheme and nothing else. */
  lemma StripSchemeOf(rest: string)
    requires !Contains(rest, "https://") && !Contains(rest, "http://")
    ensures StripScheme("https://" + rest) == rest
  {
    ReplaceHead("https://", rest);
    ReplaceAbsent(rest, "https://", "");
    ReplaceAbsent(rest, "http://", "");
  }

  /** The parts of the contact line: the e-mail, then the LinkedIn URL
    * without its scheme, or the phone when there is no LinkedIn URL. */
  function ContactPartsOf(email: string, linkedin: string, phone: string): (r: seq<string>)
    ensures |r| == (if email != "" then 1 else 0) + (if linkedin != "" || phone != "" then 1 else 0)
    ensures email != "" ==> r[0] == email
    ensures linkedin != "" ==> r[|r| - 1] == StripScheme(linkedin)
    ensures linkedin == "" && phone != "" ==> r[|r| - 1] == phone
  {
    (if email != "" then [email] else []) +
    (if linkedin != "" then [StripScheme(linkedin)] else if phone != "" then [phone] else [])
  }

  /** The appends of `generate_pdf` that build the contact parts. */
  method ContactParts(email: string, linkedin: string, phone: string) returns (parts: seq<string>)
    ensures parts == ContactPartsOf(email, linkedin, phone)
  {
    parts := [];
    if email != "" {
      parts := parts + [email];
    }
    if linkedin != "" {
      var clean := StripScheme(linkedin);
      parts := parts + [clean];
    } else if phone != "" {
      parts := parts + [phone];
    }
  }

  /** The contact line: the parts joined with " | ", left out when there are none. */
  function ContactLine(email: string, linkedin: string, phone: string): (r: Option<string>)
    ensures r.None? <==> email == "" && linkedin == "" && phone == ""
  {
    var parts := ContactPartsOf(email, linkedin, phone);
    if parts == [] then None else Some(Join(parts, " | "))
  }

  /** The pads around the "|" of the contact line. */
  lemma ContactPads() returns (a: string, b: string)
    ensures AllSpace(a) && AllSpace(b) && '|' !in a && '|' !in b
    ensures a + ['|'] + b == " | "
  {
    a, b := " ", " ";
  }

  /** Clean parts without "|" can be read back from the contact line. */
  lemma ContactLineRoundTrip(email: string, linkedin: string, phone: string)
    requires var parts := ContactPartsOf(email, linkedin, phone);
             forall k :: 0 <= k < |parts| ==> parts[k] != "" && IsStripped(parts[k]) && '|' !in parts[k]
    ensures var line := ContactLine(email, linkedin, phone);
            line.Some? ==> Stripped(Split(line.value, '|')) == ContactPartsOf(email, linkedin, phone)
  {
    var parts := ContactPartsOf(email, linkedin, phone);
    if parts != [] {
      var a, b := ContactPads();
      SplitFramed(parts, a, '|', b);
    }
  }

  // ------------------------------------------- generate_resume_pdf: file name

  /** The characters `[^\w\s-]` does not remove. */
  predicate NameChar(c: char)
  {
    IsWordChar(c) || IsSpace(c) || c == '-'
  }

  /** The file-name stem: other characters removed, stripped, spaces made "_". */
  function SafeName(name: string): (r: string)
    ensures forall i :: 0 <= i < |r| ==> NameChar(r[i]) && r[i] != ' '
    ensures IsStripped(r)
  {
    var t := StrippedKept(name);
    SpacesReplaced(t);
    ReplaceChar(t, ' ', '_')
  }

  /** Turning the spaces of a stripped stem into "_" keeps it stripped. */
  lemma SpacesReplaced(t: string)
    requires IsStripped(t) && forall i :: 0 <= i < |t| ==> NameChar(t[i])
    ensures var r := ReplaceChar(t, ' ', '_');
            IsStripped(r) && forall i :: 0 <= i < |r| ==> NameChar(r[i]) && r[i] != ' '
  {
    var r := ReplaceChar(t, ' ', '_');
    assert NameChar('_');
    assert |r| > 0 ==> r[0] == t[0] && r[|r| - 1] == t[|t| - 1];
  }

  /** The kept characters, stripped. */
  function StrippedKept(name: string): (t: string)
    ensures forall i :: 0 <= i < |t| ==> NameChar(t[i])
    ensures IsStripped(t)
  {
    var kept := KeepChars(name, NameChar);
    StripKeeps(kept, NameChar);
    Strip(kept)
  }

  /** A stem has no "." and no "/", so it adds no suffix and no directory. */
  lemma StemExcludes(name: string)
    ensures '.' !in SafeName(name) && '/' !in SafeName(name)
  {
    var r := SafeName(name);
    assert forall c :: c in r ==> NameChar(c);
  }

  /** Sanitising a sanitised stem changes nothing. */
  lemma SafeNameIdempotent(name: string)
    ensures SafeName(SafeName(name)) == SafeName(name)
  {
    var r := SafeName(name);
    KeepCharsAll(r, NameChar);
    StripOfStripped(r);
    ReplaceCharAbsent(r, ' ', '_');
  }

  /** A stripped name of kept characters only has its spaces made "_". */
  lemma SafeNameOfClean(name: string)
    requires IsStripped(name) && forall i :: 0 <= i < |name| ==> NameChar(name[i])
    ensures SafeName(name) == ReplaceChar(name, ' ', '_')
  {
    KeepCharsAll(name, NameChar);
    StripOfStripped(name);
  }

  const ResumeInfix := "_Batpharma_Resume_"
  const PdfExtension := ".pdf"

  /** The generated file's name: the stem of the given name (else the full
    * name, else "Unknown"), the template's infix, the timestamp, ".pdf". */
  function ResumeFileName(candidateName: string, fullName: Option<string>, timestamp: string): (r: string)
    ensures |r| >= |ResumeInfix| + |PdfExtension| && r[|r| - |PdfExtension|..] == PdfExtension
  {
    var name := if candidateName != "" then candidateName else match fullName case Some(n) => n case None => "Unknown";
    SafeName(name) + ResumeInfix + timestamp + PdfExtension
  }

  /** What the suffix check needs of the literals of the file name. */
  lemma FileNameLiterals()
    ensures ResumeInfix != "" && '.' !in ResumeInfix && '/' !in ResumeInfix
    ensures |PdfExtension| >= 2 && PdfExtension[0] == '.' && '.' !in PdfExtension[1..] && '/' !in PdfExtension
    ensures Lower(PdfExtension) in SupportedFormats
  {
    assert Lower(PdfExtension) == SupportedFormats[0];
  }

  /** A generated resume, saved under its generated name, passes the upload
    * check (its size being between 1 byte and 10 MiB). */
  lemma GeneratedNameValid(candidateName: string, fullName: Option<string>, timestamp: string, size: nat)
    requires forall i :: 0 <= i < |timestamp| ==> IsDigit(timestamp[i]) || timestamp[i] == '_'
    requires 0 < size <= MaxFileSize
    ensures Suffix(ResumeFileName(candidateName, fullName, timestamp)) == PdfExtension
    ensures ValidateFile(size, ResumeFileName(candidateName, fullName, timestamp)).0
  {
    var name := if candidateName != "" then candidateName else match fullName case Some(n) => n case None => "Unknown";
    var stem := SafeName(name);
    var base := stem + ResumeInfix + timestamp;
    FileNameLiterals();
    StemExcludes(name);
    assert '.' !in timestamp && '/' !in timestamp;
    assert '.' !in base && '/' !in base;
    assert ResumeFileName(candidateName, fullName, timestamp) == base + PdfExtension;
    SuffixOf(base, PdfExtension);
  }
}
