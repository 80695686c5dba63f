/** The team manager: an in-memory list of team-member records with lookup
  * by id or name, an in-place LinkedIn update, the with/without-LinkedIn
  * partition, a summary report and a case-insensitive search. Reading and
  * writing the JSON file are left to the caller: the manager starts from
  * the list it was loaded with. */
module Team {
  import opened Wrappers
  import opened Text
  import opened Seqs
  import opened Ratios

  /** A value of a member record as the team file holds it: the key is
    * missing, `null`, a string, an integer, or any other JSON value (a
    * float, a boolean, a list or an object), known by its `str()` text, its
    * truthiness and the integer Python's `==` takes it to equal, if any (a
    * float with an integral value, or a boolean, with `true` as 1 and
    * `false` as 0). */
  datatype Value = Absent | Null | Str(s: string) | Int(n: int) | Other(shown: string, truthy: bool, num: Option<int>)

  /** A member record: the eight keys the manager reads, and whether the
    * record holds any other key. */
  datatype Member = Member(
    id: Value, fullName: Value, role: Value, skills: Value, department: Value, status: Value,
    linkedinUrl: Value, updatedAt: Value, otherKeys: bool)

  /** The empty record: the one falsy member. */
  const NoFields := Member(Absent, Absent, Absent, Absent, Absent, Absent, Absent, Absent, false)

  /** `str(n)` of an integer. */
  function IntText(n: int): string
  {
    if n < 0 then "-" + NatToString(-n) else NatToString(n)
  }

  /** `member.get(key, '')` as an f-string renders it: a missing key gives
    * "", `null` gives "None". */
  function Rendered(v: Value): string
  {
    match v
    case Absent => ""
    case Null => "None"
    case Str(s) => s
    case Int(n) => IntText(n)
    case Other(shown, _, _) => shown
  }

  /** `member.get(key, '').lower()`: None when the value is not a string
    * (`null` included), where Python raises `AttributeError`. */
  function Lowered(v: Value): (r: Option<string>)
    ensures r.Some? <==> v.Absent? || v.Str?
    ensures r.Some? ==> r.value == Lower(Rendered(v))
  {
    match v
    case Absent => Some("")
    case Str(s) => Some(Lower(s))
    case _ => None
  }

  /** Python truthiness of `member.get(key)`. */
  predicate Truthy(v: Value)
  {
    match v
    case Absent => false
    case Null => false
    case Str(s) => s != ""
    case Int(n) => n != 0
    case Other(_, truthy, _) => truthy
  }

  /** The error the manager lets escape: `.lower()` on a value that is not a
    * string. */
  datatype Raised = AttributeError

  /** How `update_linkedin_url` finds its member: an `int` is an id, a `str`
    * a full name. */
  datatype Identifier = ById(id: int) | ByName(name: string)

  /** The outcome of `update_linkedin_url`: a boolean, the `AttributeError`
    * of the name lookup, or the `KeyError` on `full_name` raised after the
    * record was already changed. */
  datatype UpdateOutcome = Returned(updated: bool) | LookupRaised | KeyErrorFullName

  // ---------------------------------------------------------------- lookup

  /** The index of the first element satisfying `p`. */
  function First<T>(xs: seq<T>, p: T -> bool): (r: Option<nat>)
    ensures r.None? <==> forall i :: 0 <= i < |xs| ==> !p(xs[i])
    ensures r.Some? ==> r.value < |xs| && p(xs[r.value])
    ensures r.Some? ==> forall i :: 0 <= i < r.value ==> !p(xs[i])
    decreases |xs|
  {
    if |xs| == 0 then None
    else if p(xs[0]) then Some(0)
    else
      var rest := First(xs[1..], p);
      if rest.None? then None else Some(rest.value + 1)
  }

  /** `member.get('id') == member_id` for an integer `member_id`: an integer
    * id equal to it, or a float or boolean id that Python's `==` equates
    * with it. */
  predicate HasId(id: int, m: Member)
  {
    m.id == Int(id) || (m.id.Other? && m.id.num == Some(id))
  }

  /** `member.get('full_name', '').lower() == name.lower()`, for a name that
    * is a string or missing. */
  predicate HasName(name: string, m: Member)
  {
    Lowered(m.fullName) == Some(Lower(name))
  }

  /** Where the name lookup stops: at a match, or at a name it cannot
    * lower-case. */
  predicate StopsAt(name: string, m: Member)
  {
    HasName(name, m) || Lowered(m.fullName).None?
  }

  /** The index the lookup of `update_linkedin_url` settles on, or the
    * error the name lookup raises. */
  function Locate(ms: seq<Member>, ident: Identifier): (r: Result<Option<nat>, Raised>)
    ensures r.Success? && r.value.Some? ==> r.value.value < |ms|
  {
    match ident
    case ById(id) => Success(First(ms, m => HasId(id, m)))
    case ByName(name) =>
      var k := First(ms, m => StopsAt(name, m));
      if k.Some? && !HasName(name, ms[k.value]) then Failure(AttributeError) else Success(k)
  }

  /** Changing a record in a way that keeps its test keeps the first match. */
  lemma {:induction false} FirstAfterUpdate<T>(xs: seq<T>, p: T -> bool, k: nat, x: T)
    requires k < |xs| && p(xs[k]) == p(x)
    ensures First(xs[k := x], p) == First(xs, p)
    decreases |xs|
  {
    if |xs| > 0 && k > 0 {
      assert xs[k := x][1..] == xs[1..][k - 1 := x];
      FirstAfterUpdate(xs[1..], p, k - 1, x);
    }
  }

  // ------------------------------------------------------------- LinkedIn

  /** The truthiness test of `get_members_with_linkedin`. */
  predicate HasLinkedin(m: Member) { Truthy(m.linkedinUrl) }

  predicate LacksLinkedin(m: Member) { !HasLinkedin(m) }

  predicate IsActive(m: Member) { m.status == Str("Active") }

  /** Every member is in exactly one of the two lists, so their sizes add
    * up to the team's. */
  lemma {:induction false} LinkedinPartition(ms: seq<Member>)
    ensures |Filter(ms, HasLinkedin)| + |Filter(ms, LacksLinkedin)| == |ms|
    ensures forall m :: m in ms ==> (m in Filter(ms, HasLinkedin) <==> m !in Filter(ms, LacksLinkedin))
    decreases |ms|
  {
    if |ms| > 0 {
      LinkedinPartition(ms[..|ms| - 1]);
    }
  }

  // ---------------------------------------------------------------- report

  /** `linkedin_completion_rate`: "0%" for an empty team, else the text
    * `f"{x:.1f}%"`, held as its count of tenths of a percent. */
  datatype Rate = ZeroPercent | Percent(tenths: nat)

  /** `with / total * 100` shown with one decimal, or "0%" for an empty
    * team. */
  function CompletionRate(with: nat, total: nat): (r: Rate)
    requires with <= total
    ensures r == ZeroPercent <==> total == 0
    ensures r.Percent? ==> r.tenths <= 1000
    ensures r.Percent? ==> 2 * total * r.tenths <= 2000 * with + total < 2 * total * r.tenths + 2 * total
    ensures r == Percent(1000) <==> total > 0 && 2000 * with >= 1999 * total
  {
    if total > 0 then
      PercentTenthsBounds(with, total);
      ShownFull(with, total);
      Percent(PercentTenths(with, total))
    else ZeroPercent
  }

  /** A complete team shows "100.0%"... */
  lemma CompleteShowsFull(n: nat)
    requires n > 0
    ensures CompletionRate(n, n) == Percent(1000)
  {
  }

  /** ...but so does one where 9999 of 10000 members have a URL. */
  lemma NearlyCompleteShowsFull()
    ensures CompletionRate(9999, 10000) == Percent(1000)
  {
  }

  datatype TeamReport = TeamReport(
    totalMembers: nat, activeMembers: nat, membersWithLinkedin: nat, membersWithoutLinkedin: nat,
    linkedinCompletionRate: Rate, teamMembers: seq<Member>)

  /** The `field` argument of a search. */
  datatype SearchField = AllFields | NameField | RoleField | SkillsField | DepartmentField | UnknownField

  function FieldOf(field: string): SearchField
  {
    if field == "all" then AllFields
    else if field == "name" then NameField
    else if field == "role" then RoleField
    else if field == "skills" then SkillsField
    else if field == "department" then DepartmentField
    else UnknownField
  }

  /** The value a single-field search reads. */
  function FieldValue(f: SearchField, m: Member): Value
    requires f.NameField? || f.RoleField? || f.SkillsField? || f.DepartmentField?
  {
    match f
    case NameField => m.fullName
    case RoleField => m.role
    case SkillsField => m.skills
    case DepartmentField => m.department
  }

  predicate IsSingleField(f: SearchField)
  {
    f.NameField? || f.RoleField? || f.SkillsField? || f.DepartmentField?
  }

  /** A single-field search raises on a value it cannot lower-case. */
  predicate SearchRaises(f: SearchField, m: Member)
  {
    IsSingleField(f) && Lowered(FieldValue(f, m)).None?
  }

  /** A search: `field` is "all" or one of the four single fields; any other
    * field matches nothing. */
  predicate Matches(query: string, f: SearchField, m: Member)
  {
    match f
    case AllFields => Contains(Lower(SearchableText(m)), query)
    case UnknownField => false
    case _ => Lowered(FieldValue(f, m)).Some? && Contains(Lowered(FieldValue(f, m)).value, query)
  }

  /** The four fields as the f-string renders them, joined by spaces, searched
    * by field "all". */
  function SearchableText(m: Member): string
  {
    Rendered(m.fullName) + " " + Rendered(m.role) + " " + Rendered(m.skills) + " " + Rendered(m.department)
  }

  /** An occurrence in the lower-cased middle part is one in the
    * lower-cased whole. */
  lemma LowerInfix(a: string, b: string, c: string, sub: string)
    requires Contains(Lower(b), sub)
    ensures Contains(Lower(a + b + c), sub)
  {
    ContainsIff(Lower(b), sub);
    var i :| OccursAt(Lower(b), sub, i);
    var whole := Lower(a + b + c);
    forall j | 0 <= j < |sub|
      ensures whole[|a| + i + j] == sub[j]
    {
      assert (a + b + c)[|a| + i + j] == b[i + j];
      assert Lower(b)[i..i + |sub|][j] == Lower(b)[i + j];
    }
    assert whole[|a| + i..|a| + i + |sub|] == sub;
    ContainsAt(whole, sub, |a| + i);
  }

  /** Searching "all" finds whatever searching one field finds. */
  lemma AllIsWidest(query: string, f: SearchField, m: Member)
    requires Matches(query, f, m)
    ensures Matches(query, AllFields, m)
  {
    var n, r, s, d := Rendered(m.fullName), Rendered(m.role), Rendered(m.skills), Rendered(m.department);
    Regroup(n, r, s, d);
    if f.NameField? {
      LowerInfix([], n, " " + r + " " + s + " " + d, query);
    } else if f.RoleField? {
      LowerInfix(n + " ", r, " " + s + " " + d, query);
    } else if f.SkillsField? {
      LowerInfix(n + " " + r + " ", s, " " + d, query);
    } else if f.DepartmentField? {
      LowerInfix(n + " " + r + " " + s + " ", d, [], query);
    }
  }

  /** The searchable text split around each of its four fields. */
  lemma Regroup(n: string, r: string, s: string, d: string)
    ensures n + " " + r + " " + s + " " + d == [] + n + (" " + r + " " + s + " " + d)
    ensures n + " " + r + " " + s + " " + d == (n + " ") + r + (" " + s + " " + d)
    ensures n + " " + r + " " + s + " " + d == (n + " " + r + " ") + s + (" " + d)
    ensures n + " " + r + " " + s + " " + d == (n + " " + r + " " + s + " ") + d + []
  {
  }

  lemma LowerOfLower(s: string)
    requires forall i :: 0 <= i < |s| ==> !IsUpper(s[i])
    ensures Lower(s) == s
  {
  }

  /** A member named "lee" with role "dev" and nothing else. */
  const Lee := Member(Absent, Str("lee"), Str("dev"), Absent, Absent, Absent, Absent, Absent, false)

  /** A query can match across field boundaries: "e d" is found under "all"
    * in `Lee`... */
  lemma AllSpansFields()
    ensures Matches("e d", AllFields, Lee)
  {
    assert SearchableText(Lee) == "lee dev  ";
    SpanText();
  }

  lemma SpanText()
    ensures Contains(Lower("lee dev  "), "e d")
  {
    LowerOfLower("lee dev  ");
    assert "lee dev  "[2..5] == "e d";
    ContainsAt("lee dev  ", "e d", 2);
  }

  /** ...though neither field holds it. */
  lemma FieldsMissSpan()
    ensures !Matches("e d", NameField, Lee)
    ensures !Matches("e d", RoleField, Lee)
  {
    LowerOfLower("lee");
    LowerOfLower("dev");
    ContainsIff("lee", "e d");
    ContainsIff("dev", "e d");
    assert !OccursAt("lee", "e d", 0);
    assert !OccursAt("dev", "e d", 0);
  }

  /** A `null` name reads "None" under "all", so searching "none" finds the
    * member, while searching by name raises. */
  lemma NullNameSearch(m: Member)
    requires m.fullName == Null
    ensures Matches("none", AllFields, m)
    ensures SearchRaises(NameField, m)
  {
    var rest := " " + Rendered(m.role) + " " + Rendered(m.skills) + " " + Rendered(m.department);
    assert SearchableText(m) == [] + "None" + rest;
    NoneLowered();
    LowerInfix([], "None", rest, "none");
  }

  lemma NoneLowered()
    ensures Contains(Lower("None"), "none")
  {
    assert Lower("None") == "none";
    ContainsSelf("none");
  }

  /** A field outside the five searches nothing and raises nothing. */
  lemma UnknownFieldMatchesNothing(ms: seq<Member>, query: string, field: string)
    requires field != "all" && field != "name" && field != "role" && field != "skills" && field != "department"
    ensures Filter(ms, m => Matches(query, FieldOf(field), m)) == []
    ensures forall m :: !SearchRaises(FieldOf(field), m)
  {
  }

  // ---------------------------------------------------------------- manager

  /** `TeamManager`: the loaded member list, changed in place. */
  class TeamManager {
    var members: seq<Member>

    /** A manager over the records read from the team file (an unreadable
      * or missing file gives the empty list). */
    constructor (loaded: seq<Member>)
      ensures members == loaded
    {
      members := loaded;
    }

    /** `get_team_member_by_id`: the first record with that id. */
    method GetTeamMemberById(memberId: int) returns (r: Option<Member>)
      ensures r.None? <==> forall i :: 0 <= i < |members| ==> !HasId(memberId, members[i])
      ensures r.Some? ==> exists k :: (0 <= k < |members| && r.value == members[k] &&
        HasId(memberId, members[k]) && (forall i :: 0 <= i < k ==> !HasId(memberId, members[i])))
    {
      var i := 0;
      while i < |members|
        invariant 0 <= i <= |members|
        invariant forall j :: 0 <= j < i ==> !HasId(memberId, members[j])
      {
        if HasId(memberId, members[i]) {
          return Some(members[i]);
        }
        i := i + 1;
      }
      return None;
    }

    /** `get_team_member_by_name`: the first record whose full name equals
      * `name` ignoring case; a record without a name counts as "", and a
      * name that is not a string raises before any later record is seen. */
    method GetTeamMemberByName(name: string) returns (r: Result<Option<Member>, Raised>)
      ensures r == Success(None) <==> forall i :: 0 <= i < |members| ==> !StopsAt(name, members[i])
      ensures r.Failure? ==> exists k :: (0 <= k < |members| && Lowered(members[k].fullName).None? &&
        (forall i :: 0 <= i < k ==> !StopsAt(name, members[i])))
      ensures r.Success? && r.value.Some? ==> exists k :: (0 <= k < |members| && r.value.value == members[k] &&
        HasName(name, members[k]) && (forall i :: 0 <= i < k ==> !StopsAt(name, members[i])))
    {
      var i := 0;
      var target := Lower(name);
      while i < |members|
        invariant 0 <= i <= |members|
        invariant forall j :: 0 <= j < i ==> !StopsAt(name, members[j])
      {
        var lowered := Lowered(members[i].fullName);
        if lowered.None? {
          return Failure(AttributeError);
        }
        if lowered.value == target {
          return Success(Some(members[i]));
        }
        i := i + 1;
      }
      return Success(None);
    }

    /** `update_linkedin_url`: stamps the found record with the URL and the
      * time `now`. A name lookup that raises changes nothing; no record, or
      * the empty record, gives false and no change; a record without
      * `full_name` is changed and then raises. */
    method UpdateLinkedinUrl(ident: Identifier, linkedinUrl: string, now: string) returns (r: UpdateOutcome)
      modifies this
      ensures var k := Locate(old(members), ident);
        if k.Failure? then
          r == LookupRaised && members == old(members)
        else if k.value.None? || old(members)[k.value.value] == NoFields then
          r == Returned(false) && members == old(members)
        else
          members == old(members)[k.value.value := old(members)[k.value.value].(linkedinUrl := Str(linkedinUrl), updatedAt := Str(now))] &&
          r == (if old(members)[k.value.value].fullName.Absent? then KeyErrorFullName else Returned(true))
    {
      var k := Locate(members, ident);
      if k.Failure? {
        return LookupRaised;
      }
      if k.value.None? || members[k.value.value] == NoFields {
        return Returned(false);
      }
      var m := members[k.value.value];
      members := members[k.value.value := m.(linkedinUrl := Str(linkedinUrl), updatedAt := Str(now))];
      if m.fullName.Absent? {
        return KeyErrorFullName;
      }
      return Returned(true);
    }

    /** `get_members_with_linkedin`. */
    function GetMembersWithLinkedin(): (r: seq<Member>)
      reads this
      ensures forall m :: m in r <==> m in members && HasLinkedin(m)
      ensures Subseq(r, members)
    {
      Filter(members, HasLinkedin)
    }

    /** `get_members_without_linkedin`. */
    function GetMembersWithoutLinkedin(): (r: seq<Member>)
      reads this
      ensures forall m :: m in r <==> m in members && !HasLinkedin(m)
      ensures Subseq(r, members)
    {
      Filter(members, LacksLinkedin)
    }

    /** `generate_team_report`. */
    function GenerateTeamReport(): (r: TeamReport)
      reads this
      ensures r.totalMembers == |members| && r.teamMembers == members
      ensures r.membersWithLinkedin + r.membersWithoutLinkedin == r.totalMembers
      ensures r.activeMembers <= r.totalMembers
      ensures r.linkedinCompletionRate == ZeroPercent <==> r.totalMembers == 0
      ensures r.linkedinCompletionRate.Percent? ==> r.linkedinCompletionRate.tenths <= 1000
      ensures |members| > 0 && (forall m :: m in members ==> HasLinkedin(m)) ==>
        r.linkedinCompletionRate == Percent(1000)
      ensures r.linkedinCompletionRate == Percent(1000) <==>
        |members| > 0 && 2000 * r.membersWithLinkedin >= 1999 * |members|
    {
      LinkedinPartition(members);
      FilterFull(members, HasLinkedin);
      var total := |members|;
      var with := |GetMembersWithLinkedin()|;
      TeamReport(total, |Filter(members, IsActive)|, with, |GetMembersWithoutLinkedin()|,
                 CompletionRate(with, total), members)
    }

    /** `search_members`: the records matching the lower-cased query in
      * `field`, in list order; a single-field search raises at the first
      * record whose value there is not a string. */
    method SearchMembers(query: string, field: string) returns (r: Result<seq<Member>, Raised>)
      ensures First(members, m => SearchRaises(FieldOf(field), m)).None? ==>
        r == Success(Filter(members, m => Matches(Lower(query), FieldOf(field), m)))
      ensures First(members, m => SearchRaises(FieldOf(field), m)).Some? ==> r == Failure(AttributeError)
    {
      var q := Lower(query);
      var f := FieldOf(field);
      var ms := members;
      var results := [];
      var i := 0;
      while i < |ms|
        invariant 0 <= i <= |ms|
        invariant results == Filter(ms[..i], m => Matches(q, f, m))
        invariant forall j :: 0 <= j < i ==> !SearchRaises(f, ms[j])
      {
        if SearchRaises(f, ms[i]) {
          return Failure(AttributeError);
        }
        var hit := Matches(q, f, ms[i]);
        SearchStep(ms, i, q, f, hit);
        NoRaiseStep(ms, i, f);
        if hit {
          results := results + [ms[i]];
        }
        i := i + 1;
      }
      assert ms[..|ms|] == ms;
      return Success(results);
    }
  }

  /** One more record of the search loop. */
  lemma SearchStep(ms: seq<Member>, i: nat, q: string, f: SearchField, hit: bool)
    requires i < |ms| && hit == Matches(q, f, ms[i])
    ensures Filter(ms[..i + 1], m => Matches(q, f, m)) ==
      Filter(ms[..i], m => Matches(q, f, m)) + (if hit then [ms[i]] else [])
  {
    FilterSnoc(ms, i, m => Matches(q, f, m));
  }

  /** The records before `i + 1` do not raise when those before `i` and the
    * one at `i` do not. */
  lemma NoRaiseStep(ms: seq<Member>, i: nat, f: SearchField)
    requires i < |ms| && !SearchRaises(f, ms[i])
    requires forall j :: 0 <= j < i ==> !SearchRaises(f, ms[j])
    ensures forall j :: 0 <= j < i + 1 ==> !SearchRaises(f, ms[j])
  {
  }

  /** Python's `==` finds a record whose id was stored as `1.0` or `true`
    * when asked for 1, and never one whose id is the string "1". */
  lemma NumericIdsMatch(m: Member)
    ensures Locate([m.(id := Other("1.0", true, Some(1)))], ById(1)) == Success(Some(0))
    ensures Locate([m.(id := Other("True", true, Some(1)))], ById(1)) == Success(Some(0))
    ensures Locate([m.(id := Str("1"))], ById(1)) == Success(None)
  {
  }

  /** After an update by id that returned true, the same lookup finds the
    * stamped record. */
  lemma UpdatedFoundById(ms: seq<Member>, id: int, url: string, now: string)
    requires First(ms, m => HasId(id, m)).Some?
    ensures var k := First(ms, m => HasId(id, m)).value;
      First(ms[k := ms[k].(linkedinUrl := Str(url), updatedAt := Str(now))], m => HasId(id, m)) == Some(k)
  {
    var k := First(ms, m => HasId(id, m)).value;
    FirstAfterUpdate(ms, m => HasId(id, m), k, ms[k].(linkedinUrl := Str(url), updatedAt := Str(now)));
  }

  /** A non-empty URL puts the updated record in the with-LinkedIn list. */
  lemma UpdatedHasLinkedin(ms: seq<Member>, k: nat, url: string, now: string)
    requires k < |ms| && url != ""
    ensures ms[k].(linkedinUrl := Str(url), updatedAt := Str(now)) in
      Filter(ms[k := ms[k].(linkedinUrl := Str(url), updatedAt := Str(now))], HasLinkedin)
  {
    assert ms[k := ms[k].(linkedinUrl := Str(url), updatedAt := Str(now))][k] ==
      ms[k].(linkedinUrl := Str(url), updatedAt := Str(now));
  }
}
