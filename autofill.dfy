/** Candidate auto-fill: merging the fields extracted from a resume or a
  * LinkedIn profile with what the user typed into the form, turning the
  * extracted fields into a database record, and checking that record. */
module Autofill {
  import opened Wrappers
  import opened Text
  import opened Patterns
  import opened PyValue

  /** `value and str(value).strip()`: a value that counts as filled in. Only
    * a string can be truthy and still blank (see `FilledIff`). */
  predicate Filled(v: Value)
  {
    Truthy(v) && (v.VStr? ==> Strip(v.s) != "")
  }

  /** `Filled` is the test the source writes. */
  lemma FilledIff(v: Value)
    ensures Filled(v) <==> Truthy(v) && Strip(Str(v)) != ""
  {
    if !v.VStr? {
      var s := Str(v);
      ReprVisible(v);
      assert Strip(s) != "" by {
        assert LStrip(s) == s;
      }
    }
  }

  /** `repr` never starts with whitespace. */
  lemma ReprVisible(v: Value)
    ensures !IsSpace(Repr(v)[0])
  {
    match v
    case VNone =>
    case VBool(b) =>
    case VInt(i) =>
      if i >= 0 {
        assert IsDigit(NatToString(i)[0]);
      }
    case VFloat(shown) =>
      assert shown[0] in "0123456789.+-eainf";
    case VStr(s) =>
    case VList(items) =>
    case VDict(entries) =>
  }

  // ------------------------------------------------- merge_with_form_data

  /** The value of the last filled-in form entry for `key`, if any. */
  function LastFilled(form: seq<(string, Value)>, key: string): (r: Option<Value>)
    ensures r.None? <==> forall i :: 0 <= i < |form| && form[i].0 == key ==> !Filled(form[i].1)
    ensures r.Some? ==> Filled(r.value) && exists i :: 0 <= i < |form| && form[i] == (key, r.value)
    decreases |form|
  {
    if |form| == 0 then None
    else
      var init := form[..|form| - 1];
      assert forall i :: 0 <= i < |init| ==> init[i] == form[i];
      if form[|form| - 1].0 == key && Filled(form[|form| - 1].1) then Some(form[|form| - 1].1)
      else LastFilled(init, key)
  }

  /** The extracted fields with the first `|form|` form entries applied. */
  function Merged(extracted: map<string, Value>, form: seq<(string, Value)>): (r: map<string, Value>)
    decreases |form|
  {
    if |form| == 0 then extracted
    else
      var prev := Merged(extracted, form[..|form| - 1]);
      var (key, value) := form[|form| - 1];
      if Filled(value) then prev[key := value] else prev
  }

  /** Key by key, the merge keeps the extracted value unless a filled-in
    * form entry exists for that key, and then takes the last such entry;
    * blank form values never override. */
  lemma {:induction false} MergedAt(extracted: map<string, Value>, form: seq<(string, Value)>, key: string)
    ensures key in Merged(extracted, form) <==> key in extracted || LastFilled(form, key).Some?
    ensures LastFilled(form, key).Some? ==> Merged(extracted, form)[key] == LastFilled(form, key).value
    ensures LastFilled(form, key).None? && key in extracted ==> Merged(extracted, form)[key] == extracted[key]
    decreases |form|
  {
    if |form| > 0 {
      MergedAt(extracted, form[..|form| - 1], key);
    }
  }

  /** Form data entered by hand wins over extracted data; a form that fills
    * nothing in leaves the extracted data as it was. */
  lemma {:induction false} BlankFormKeepsExtracted(extracted: map<string, Value>, form: seq<(string, Value)>)
    requires forall i :: 0 <= i < |form| ==> !Filled(form[i].1)
    ensures Merged(extracted, form) == extracted
    decreases |form|
  {
    if |form| > 0 {
      BlankFormKeepsExtracted(extracted, form[..|form| - 1]);
    }
  }

  /** `merge_with_form_data`: a copy of the extracted fields, overwritten
    * entry by entry by the filled-in form values. */
  method MergeWithFormData(extracted: map<string, Value>, form: seq<(string, Value)>) returns (merged: map<string, Value>)
    ensures merged == Merged(extracted, form)
  {
    merged := extracted;
    for i := 0 to |form|
      invariant merged == Merged(extracted, form[..i])
    {
      assert form[..i + 1][..i] == form[..i];
      var (key, value) := form[i];
      if Filled(value) {
        merged := merged[key := value];
      }
    }
    assert form[..|form|] == form;
  }

  // ---------------------------------------- create_candidate_from_extracted_data

  /** The eleven fields a candidate record takes over (each under its own name). */
  const FieldKeys := ["full_name", "email", "linkedin_url", "company", "position", "location", "skills",
                      "experience_summary", "phone", "total_experience", "education"]

  /** `str(value).strip()`. */
  function Shown(v: Value): (s: string)
    ensures Filled(v) ==> s != "" && IsStripped(s)
    ensures v.VStr? ==> s == Strip(v.s)
  {
    FilledIff(v);
    Strip(Str(v))
  }

  /** The shown text of every filled-in field among `keys`. */
  function Kept(extracted: map<string, Value>, keys: seq<string>): (r: map<string, string>)
    ensures forall k :: k in r ==> k in keys && k in extracted && Filled(extracted[k])
    ensures forall k :: k in r ==> r[k] == Shown(extracted[k]) && r[k] != "" && IsStripped(r[k])
    decreases |keys|
  {
    if |keys| == 0 then map[]
    else
      var init := keys[..|keys| - 1];
      var prev := Kept(extracted, init);
      var key := keys[|keys| - 1];
      assert forall k :: k in init ==> k in keys;
      var value := Get(extracted, key, VStr(""));
      if Filled(value) then prev[key := Shown(value)] else prev
  }

  /** Every filled-in field among `keys` is kept. */
  lemma {:induction false} KeptCovers(extracted: map<string, Value>, keys: seq<string>, k: string)
    requires k in keys && k in extracted && Filled(extracted[k])
    ensures k in Kept(extracted, keys)
    decreases |keys|
  {
    var init := keys[..|keys| - 1];
    if k != keys[|keys| - 1] {
      assert k in init by {
        var i :| 0 <= i < |keys| && keys[i] == k;
        assert init[i] == k;
      }
      KeptCovers(extracted, init, k);
    }
  }

  /** The loop of `create_candidate_from_extracted_data` over any key list. */
  method FillFields(extracted: map<string, Value>, keys: seq<string>) returns (candidate: map<string, string>)
    ensures candidate == Kept(extracted, keys)
  {
    candidate := map[];
    for i := 0 to |keys|
      invariant candidate == Kept(extracted, keys[..i])
    {
      assert keys[..i + 1][..i] == keys[..i];
      var value := Get(extracted, keys[i], VStr(""));
      if Filled(value) {
        candidate := candidate[keys[i] := Shown(value)];
      }
    }
    assert keys[..|keys|] == keys;
  }

  /** `create_candidate_from_extracted_data`: only the eleven record fields,
    * each stripped and non-empty. */
  method CreateCandidateFromExtractedData(extracted: map<string, Value>) returns (candidate: map<string, string>)
    ensures candidate == Kept(extracted, FieldKeys)
  {
    candidate := FillFields(extracted, FieldKeys);
  }

  // ------------------------------------------------- validate_extracted_data

  /** The messages `validate_extracted_data` can report. */
  datatype FieldError = NameRequired | UrlRequired | InvalidEmail | NoScheme | NotLinkedIn
  {
    function Message(): string
    {
      match this
      case NameRequired => "Full name is required"
      case UrlRequired => "LinkedIn URL is required"
      case InvalidEmail => "Invalid email format"
      case NoScheme => "LinkedIn URL must start with http:// or https://"
      case NotLinkedIn => "Must be a valid LinkedIn URL"
    }
  }

  predicate HasScheme(url: string)
  {
    StartsWith(url, "http://") || StartsWith(url, "https://")
  }

  /** What is wrong with the URL: no scheme, else no "linkedin.com" in any case. */
  function UrlErrors(url: string): (r: seq<FieldError>)
    ensures |r| <= 1
    ensures NoScheme in r <==> url != "" && !HasScheme(url)
    ensures NotLinkedIn in r <==> url != "" && HasScheme(url) && !Contains(Lower(url), "linkedin.com")
    ensures NameRequired !in r && UrlRequired !in r && InvalidEmail !in r
  {
    if url == "" then []
    else if !HasScheme(url) then [NoScheme]
    else if !Contains(Lower(url), "linkedin.com") then [NotLinkedIn]
    else []
  }

  function EmailErrors(email: string): (r: seq<FieldError>)
    ensures |r| <= 1
    ensures InvalidEmail in r <==> email != "" && !EmailMatches(email)
    ensures NameRequired !in r && UrlRequired !in r && NoScheme !in r && NotLinkedIn !in r
  {
    if email != "" && !EmailMatches(email) then [InvalidEmail] else []
  }

  /** The errors of `validate_extracted_data`, in the order it reports them;
    * a missing field is passed as "". */
  function ValidationErrors(fullName: string, email: string, url: string): (r: seq<FieldError>)
    ensures NameRequired in r <==> Strip(fullName) == ""
    ensures UrlRequired in r <==> Strip(url) == ""
    ensures InvalidEmail in r <==> Strip(email) != "" && !EmailMatches(Strip(email))
    ensures NoScheme in r <==> Strip(url) != "" && !HasScheme(Strip(url))
    ensures NotLinkedIn in r <==> Strip(url) != "" && HasScheme(Strip(url)) && !Contains(Lower(Strip(url)), "linkedin.com")
    ensures !(NoScheme in r && NotLinkedIn in r)
    ensures |r| <= 4
  {
    StrippedErrors(Strip(fullName) == "", Strip(email), Strip(url))
  }

  /** The same errors, from the stripped fields. */
  function StrippedErrors(nameBlank: bool, address: string, link: string): (r: seq<FieldError>)
    ensures NameRequired in r <==> nameBlank
    ensures UrlRequired in r <==> link == ""
    ensures InvalidEmail in r <==> address != "" && !EmailMatches(address)
    ensures NoScheme in r <==> link != "" && !HasScheme(link)
    ensures NotLinkedIn in r <==> link != "" && HasScheme(link) && !Contains(Lower(link), "linkedin.com")
    ensures !(NoScheme in r && NotLinkedIn in r)
    ensures |r| <= 4
  {
    (if nameBlank then [NameRequired] else []) +
    (if link == "" then [UrlRequired] else []) +
    EmailErrors(address) +
    UrlErrors(link)
  }

  /** `validate_extracted_data`: valid exactly when nothing was reported. */
  method ValidateExtractedData(fullName: string, email: string, url: string) returns (isValid: bool, errors: seq<FieldError>)
    ensures errors == ValidationErrors(fullName, email, url)
    ensures isValid <==> errors == []
  {
    errors := ReportErrors(Strip(fullName) == "", Strip(email), Strip(url));
    isValid := |errors| == 0;
  }

  /** The checks of `validate_extracted_data` on the stripped fields, each
    * appending its message. */
  method ReportErrors(nameBlank: bool, address: string, link: string) returns (errors: seq<FieldError>)
    ensures errors == StrippedErrors(nameBlank, address, link)
  {
    errors := [];
    ghost var name := if nameBlank then [NameRequired] else [];
    if nameBlank {
      errors := errors + [NameRequired];
    }
    assert errors == name;
    ghost var missing := if link == "" then [UrlRequired] else [];
    if link == "" {
      errors := errors + [UrlRequired];
    }
    assert errors == name + missing;
    if address != "" {
      if !EmailMatches(address) {
        errors := errors + [InvalidEmail];
      }
    }
    assert errors == name + missing + EmailErrors(address);
    ghost var checked := errors;
    if link != "" {
      if !HasScheme(link) {
        errors := errors + [NoScheme];
      } else if !Contains(Lower(link), "linkedin.com") {
        errors := errors + [NotLinkedIn];
      }
    }
    assert errors == checked + UrlErrors(link);
  }

  /** An https URL on linkedin.com raises no URL error. */
  lemma LinkedInUrlAccepted(path: string)
    ensures UrlErrors("https://linkedin.com" + path) == []
  {
    var url := "https://linkedin.com" + path;
    var low := Lower(url);
    var host := "linkedin.com";
    forall i | 0 <= i < |host|
      ensures low[8 + i] == host[i]
    {
      assert url[8 + i] == host[i];
    }
    assert low[8..20] == host;
    ContainsAt(low, host, 8);
    assert url[..8] == "https://";
  }



  /** A record with a stripped name, a matching e-mail address and an https
    * URL on linkedin.com is valid. */
  lemma ValidRecord(fullName: string, email: string, path: string)
    requires fullName != "" && IsStripped(fullName)
    requires email != "" && IsStripped(email) && EmailMatches(email)
    requires IsStripped(path)
    ensures ValidationErrors(fullName, email, "https://linkedin.com" + path) == []
  {
    var url := "https://linkedin.com" + path;
    LinkedInUrlStripped(path);
    StripOfStripped(fullName);
    StripOfStripped(email);
    StripOfStripped(url);
    LinkedInUrlAccepted(path);
  }

  lemma LinkedInUrlStripped(path: string)
    requires IsStripped(path)
    ensures IsStripped("https://linkedin.com" + path)
  {
    var url := "https://linkedin.com" + path;
    assert url[0] == 'h';
    if path != "" {
      assert url[|url| - 1] == path[|path| - 1];
    } else {
      assert url[|url| - 1] == 'm';
    }
  }

}
