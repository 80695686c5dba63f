/** The LinkedIn-connections store (`database_manager.py`): the `candidates`
  * table as a map from autoincrement ids to records, with the LinkedIn URL
  * as its uniqueness key. The CSV side file and the SQL text are not part
  * of this model; the clock is a parameter. */
module CandidateDb {
  import opened Wrappers
  import opened Text
  import opened Seqs
  import opened Sorting

  /** One row of the `candidates` table. `updatedAt` is `None` while the
    * row still carries its insertion default. */
  datatype Record = Record(
    firstName: string, lastName: string, fullName: string, linkedinUrl: string, email: string,
    company: string, position: string, connectedOn: string, location: string, skills: string,
    experienceSummary: string, updatedAt: Option<string>)

  /** The `candidate_data` dictionary handed to `add_candidate`, one entry
    * per key it reads; `None` is a key the dictionary does not hold. */
  datatype NewCandidate = NewCandidate(
    fullName: Option<string>, linkedinUrl: Option<string>, email: Option<string>, company: Option<string>,
    position: Option<string>, connectedOn: Option<string>, location: Option<string>, skills: Option<string>,
    experienceSummary: Option<string>)

  /** `candidate_data.get(key, '')`. */
  function Get(entry: Option<string>): string
  {
    if entry.Some? then entry.value else ""
  }

  /** The dictionary handed to `update_candidate`, keyed by column name. */
  type Fields = map<string, string>

  predicate Blank(s: string)
  {
    Strip(s) == ""
  }

  /** `full.split(' ', 1)`: the text before the first space, and the rest. */
  function NameParts(full: string): (parts: (string, string))
    ensures ' ' !in parts.0
    ensures ' ' in full ==> parts.0 + " " + parts.1 == full
    ensures ' ' !in full ==> parts == (full, "")
  {
    if ' ' in full then
      var i := IndexOf(full, ' ');
      assert full == full[..i] + " " + full[i + 1..];
      (full[..i], full[i + 1..])
    else (full, "")
  }

  /** The row `add_candidate` inserts: the name is stripped and split at its
    * first space, the URL is stored exactly as supplied. */
  function NewRecord(data: NewCandidate, today: string): (r: Record)
    ensures r.fullName == Strip(Get(data.fullName)) && r.linkedinUrl == Get(data.linkedinUrl)
    ensures ' ' !in r.firstName
    ensures ' ' in r.fullName ==> r.firstName + " " + r.lastName == r.fullName
    ensures ' ' !in r.fullName ==> r.firstName == r.fullName && r.lastName == ""
    ensures r.connectedOn == (if data.connectedOn.Some? then data.connectedOn.value else today)
  {
    var full := Strip(Get(data.fullName));
    var parts := NameParts(full);
    Record(parts.0, parts.1, full, Get(data.linkedinUrl), Get(data.email), Get(data.company),
           Get(data.position), if data.connectedOn.Some? then data.connectedOn.value else today,
           Get(data.location), Get(data.skills), Get(data.experienceSummary), None)
  }

  /** The URLs stored in `rows`. */
  function Urls(rows: map<int, Record>): set<string>
  {
    set id | id in rows :: rows[id].linkedinUrl
  }

  /** The table invariant: ids below the autoincrement counter, and the
    * `UNIQUE` constraint on `linkedin_url`. */
  predicate Wf(rows: map<int, Record>, nextId: int)
  {
    nextId >= 1 &&
    (forall id :: id in rows ==> 1 <= id < nextId) &&
    (forall a, b :: a in rows && b in rows && rows[a].linkedinUrl == rows[b].linkedinUrl ==> a == b)
  }

  /** Adding a row under a fresh id with a new URL keeps the invariant. */
  lemma WfInsert(rows: map<int, Record>, nextId: int, r: Record)
    requires Wf(rows, nextId) && r.linkedinUrl !in Urls(rows)
    ensures Wf(rows[nextId := r], nextId + 1)
    ensures Urls(rows[nextId := r]) == Urls(rows) + {r.linkedinUrl}
    ensures |rows[nextId := r]| == |rows| + 1
  {
    var rows' := rows[nextId := r];
    forall a, b | a in rows' && b in rows' && rows'[a].linkedinUrl == rows'[b].linkedinUrl
      ensures a == b
    {
      if a != nextId {
        assert rows[a].linkedinUrl in Urls(rows);
      }
      if b != nextId {
        assert rows[b].linkedinUrl in Urls(rows);
      }
    }
    assert Urls(rows') == Urls(rows) + {r.linkedinUrl} by {
      forall u | u in Urls(rows')
        ensures u in Urls(rows) + {r.linkedinUrl}
      {
        var id :| id in rows' && rows'[id].linkedinUrl == u;
        if id != nextId {
          assert rows[id].linkedinUrl == u;
        }
      }
      forall u | u in Urls(rows)
        ensures u in Urls(rows')
      {
        var id :| id in rows && rows[id].linkedinUrl == u;
        assert rows'[id].linkedinUrl == u;
      }
      assert rows'[nextId].linkedinUrl == r.linkedinUrl;
    }
    assert nextId !in rows;
  }

  // ------------------------------------------------------------- CSV sync

  /** A row of the connections CSV; `None` is an empty cell, which pandas
    * reads as a float NaN that has no `.strip()`. */
  datatype CsvRow = CsvRow(
    firstName: Option<string>, lastName: Option<string>, url: Option<string>, email: Option<string>,
    company: Option<string>, position: Option<string>, connectedOn: Option<string>)

  /** The record a CSV row becomes, or `None` when one of its cells is empty
    * (the `.strip()` raises and the whole sync is abandoned). */
  function CsvRecord(row: CsvRow, url: string): (r: Option<Record>)
    ensures r.Some? ==> r.value.linkedinUrl == url
    ensures r.None? <==> row.firstName.None? || row.lastName.None? || row.email.None? ||
                         row.company.None? || row.position.None? || row.connectedOn.None?
  {
    if row.firstName.None? || row.lastName.None? || row.email.None? || row.company.None? ||
       row.position.None? || row.connectedOn.None? then None
    else
      var first := Strip(row.firstName.value);
      var last := Strip(row.lastName.value);
      Some(Record(first, last, Strip(first + " " + last), url, Strip(row.email.value),
                  Strip(row.company.value), Strip(row.position.value), Strip(row.connectedOn.value),
                  "", "", "", None))
  }

  /** What one CSV row does to a sync that has `seen` some URLs already. */
  datatype RowOutcome = Abort | Skip | Insert(rec: Record)

  /** A row whose URL cell is empty aborts; a blank or already seen URL is
    * skipped; otherwise the row is inserted unless another cell is empty. */
  function SyncRow(row: CsvRow, seen: set<string>): (o: RowOutcome)
    ensures o.Skip? <==> row.url.Some? && (Strip(row.url.value) == "" || Strip(row.url.value) in seen)
    ensures o.Insert? ==> row.url.Some? && o.rec.linkedinUrl == Strip(row.url.value)
    ensures o.Insert? ==> o.rec.linkedinUrl != "" && o.rec.linkedinUrl !in seen
  {
    if row.url.None? then Abort
    else
      var url := Strip(row.url.value);
      if url == "" || url in seen then Skip
      else match CsvRecord(row, url)
        case None => Abort
        case Some(rec) => Insert(rec)
  }

  /** The records `sync_csv_to_db` inserts, in file order, given the URLs
    * already `seen`, or `None` when a row abandons the sync. */
  function SyncPlan(csv: seq<CsvRow>, seen: set<string>): (r: Option<seq<Record>>)
    decreases |csv|
  {
    if |csv| == 0 then Some([])
    else match SyncRow(csv[0], seen)
      case Abort => None
      case Skip => SyncPlan(csv[1..], seen)
      case Insert(rec) => Prepend([rec], SyncPlan(csv[1..], seen + {rec.linkedinUrl}))
  }

  function Prepend(done: seq<Record>, rest: Option<seq<Record>>): (r: Option<seq<Record>>)
    ensures r.None? <==> rest.None?
    ensures r.Some? ==> r.value == done + rest.value
  {
    match rest
    case None => None
    case Some(recs) => Some(done + recs)
  }

  /** The URLs of some records. */
  function UrlSet(recs: seq<Record>): set<string>
  {
    set r | r in recs :: r.linkedinUrl
  }

  /** Records with non-empty URLs, none of them in `seen` and no two alike. */
  predicate FreshUrls(recs: seq<Record>, seen: set<string>)
  {
    (forall k :: 0 <= k < |recs| ==> recs[k].linkedinUrl != "" && recs[k].linkedinUrl !in seen) &&
    (forall j, k :: 0 <= j < k < |recs| ==> recs[j].linkedinUrl != recs[k].linkedinUrl)
  }

  /** The planned records have non-empty URLs, none of them seen before and
    * no two alike: a URL repeated in the file is inserted once. */
  lemma {:induction false} SyncPlanFresh(csv: seq<CsvRow>, seen: set<string>)
    requires SyncPlan(csv, seen).Some?
    ensures FreshUrls(SyncPlan(csv, seen).value, seen)
    decreases |csv|
  {
    if |csv| > 0 {
      match SyncRow(csv[0], seen)
      case Skip =>
        SyncPlanFresh(csv[1..], seen);
      case Insert(rec) =>
        var url := rec.linkedinUrl;
        SyncPlanFresh(csv[1..], seen + {url});
        FreshCons(rec, SyncPlan(csv[1..], seen + {url}).value, seen, url);
    }
  }

  lemma FreshCons(rec: Record, rest: seq<Record>, seen: set<string>, url: string)
    requires url != "" && url !in seen && rec.linkedinUrl == url
    requires FreshUrls(rest, seen + {url})
    ensures FreshUrls([rec] + rest, seen)
  {
    var recs := [rec] + rest;
    forall k | 0 <= k < |recs|
      ensures recs[k].linkedinUrl != "" && recs[k].linkedinUrl !in seen
    {
      if k > 0 {
        assert recs[k] == rest[k - 1];
      }
    }
    forall j, k | 0 <= j < k < |recs|
      ensures recs[j].linkedinUrl != recs[k].linkedinUrl
    {
      assert recs[k] == rest[k - 1];
      if j > 0 {
        assert recs[j] == rest[j - 1];
      }
    }
  }

  /** Once every URL a sync inserts is known, the same file plans nothing. */
  lemma {:induction false} SyncPlanCovered(csv: seq<CsvRow>, seen: set<string>, known: set<string>)
    requires SyncPlan(csv, seen).Some?
    requires seen + UrlSet(SyncPlan(csv, seen).value) <= known
    ensures SyncPlan(csv, known) == Some([])
    decreases |csv|
  {
    if |csv| > 0 {
      var recs := SyncPlan(csv, seen).value;
      match SyncRow(csv[0], seen)
      case Skip =>
        SyncPlanCovered(csv[1..], seen, known);
      case Insert(rec) =>
        var url := rec.linkedinUrl;
        var rest := SyncPlan(csv[1..], seen + {url}).value;
        assert recs == [rec] + rest;
        assert rec in recs;
        assert UrlSet(rest) <= UrlSet(recs) by {
          forall u | u in UrlSet(rest)
            ensures u in UrlSet(recs)
          {
            var r :| r in rest && r.linkedinUrl == u;
            assert r in recs;
          }
        }
        SyncPlanCovered(csv[1..], seen + {url}, known);
    }
  }

  /** The table after inserting `recs` under consecutive ids from `nextId`. */
  function Inserted(rows: map<int, Record>, nextId: int, recs: seq<Record>): (r: map<int, Record>)
    ensures forall id :: id in r <==> id in rows || nextId <= id < nextId + |recs|
    ensures forall k :: 0 <= k < |recs| ==> r[nextId + k] == recs[k]
    ensures forall id :: id in rows && !(nextId <= id < nextId + |recs|) ==> r[id] == rows[id]
  {
    map id | id in rows.Keys + IdRange(nextId, |recs|) ::
      if nextId <= id < nextId + |recs| then recs[id - nextId] else rows[id]
  }

  /** The ids `lo`, ..., `lo + n - 1`. */
  function IdRange(lo: int, n: nat): (r: set<int>)
    ensures forall k :: k in r <==> lo <= k < lo + n
  {
    if n == 0 then {} else IdRange(lo, n - 1) + {lo + n - 1}
  }

  /** Inserting records with fresh, distinct URLs keeps the invariant. */
  lemma InsertedWf(rows: map<int, Record>, nextId: int, recs: seq<Record>)
    requires Wf(rows, nextId) && FreshUrls(recs, Urls(rows))
    ensures Wf(Inserted(rows, nextId, recs), nextId + |recs|)
  {
    var m := Inserted(rows, nextId, recs);
    forall a, b | a in m && b in m && a != b
      ensures m[a].linkedinUrl != m[b].linkedinUrl
    {
      if a < nextId && b < nextId {
        assert m[a] == rows[a] && m[b] == rows[b];
      } else if a < nextId {
        assert m[a] == rows[a] && m[b] == recs[b - nextId];
        assert rows[a].linkedinUrl in Urls(rows);
      } else if b < nextId {
        assert m[b] == rows[b] && m[a] == recs[a - nextId];
        assert rows[b].linkedinUrl in Urls(rows);
      } else {
        assert m[a] == recs[a - nextId] && m[b] == recs[b - nextId];
      }
    }
  }

  /** After the insertion both the old URLs and the inserted ones are taken. */
  lemma InsertedCovers(rows: map<int, Record>, nextId: int, recs: seq<Record>)
    requires Wf(rows, nextId)
    ensures Urls(rows) + UrlSet(recs) <= Urls(Inserted(rows, nextId, recs))
  {
    var m := Inserted(rows, nextId, recs);
    forall u | u in Urls(rows) + UrlSet(recs)
      ensures u in Urls(m)
    {
      if u in Urls(rows) {
        var id :| id in rows && rows[id].linkedinUrl == u;
        assert m[id] == rows[id];
      } else {
        var r :| r in recs && r.linkedinUrl == u;
        var k :| 0 <= k < |recs| && recs[k] == r;
        assert m[nextId + k] == r;
      }
    }
  }

  /** `sync_csv_to_db` is idempotent: once a file has been synced, syncing
    * it again plans no insertion. */
  lemma SyncTwice(rows: map<int, Record>, nextId: int, csv: seq<CsvRow>)
    requires Wf(rows, nextId) && SyncPlan(csv, Urls(rows)).Some?
    ensures var recs := SyncPlan(csv, Urls(rows)).value;
      SyncPlan(csv, Urls(Inserted(rows, nextId, recs))) == Some([])
  {
    var recs := SyncPlan(csv, Urls(rows)).value;
    InsertedCovers(rows, nextId, recs);
    SyncPlanCovered(csv, Urls(rows), Urls(Inserted(rows, nextId, recs)));
  }

  lemma PrependNothing(o: Option<seq<Record>>)
    ensures Prepend([], o) == o
  {
    if o.Some? {
      assert [] + o.value == o.value;
    }
  }

  lemma PrependAssoc(a: seq<Record>, b: seq<Record>, o: Option<seq<Record>>)
    ensures Prepend(a, Prepend(b, o)) == Prepend(a + b, o)
  {
    if o.Some? {
      assert a + (b + o.value) == (a + b) + o.value;
    }
  }

  /** The loop of `sync_csv_to_db`: the records it inserts, or `None` when
    * a row raises and the transaction is rolled back. */
  method PlanSync(lines: seq<CsvRow>, seen: set<string>) returns (added: Option<seq<Record>>)
    ensures added == SyncPlan(lines, seen)
  {
    var existing := seen;
    var done: seq<Record> := [];
    assert lines[0..] == lines;
    PrependNothing(SyncPlan(lines, existing));
    var i := 0;
    while i < |lines|
      invariant 0 <= i <= |lines|
      invariant SyncPlan(lines, seen) == Prepend(done, SyncPlan(lines[i..], existing))
    {
      SyncPlanStep(lines, i, existing);
      var outcome := SyncRow(lines[i], existing);
      match outcome {
        case Abort =>
          return None;
        case Skip =>
        case Insert(rec) =>
          PrependAssoc(done, [rec], SyncPlan(lines[i + 1..], existing + {rec.linkedinUrl}));
          existing := existing + {rec.linkedinUrl};
          done := done + [rec];
      }
      i := i + 1;
    }
    assert lines[|lines|..] == [];
    assert done + [] == done;
    added := Some(done);
  }

  /** One row of the sync loop, as `SyncPlan` sees it. */
  lemma SyncPlanStep(csv: seq<CsvRow>, i: nat, seen: set<string>)
    requires i < |csv|
    ensures SyncPlan(csv[i..], seen) ==
      match SyncRow(csv[i], seen)
      case Abort => None
      case Skip => SyncPlan(csv[i + 1..], seen)
      case Insert(rec) => Prepend([rec], SyncPlan(csv[i + 1..], seen + {rec.linkedinUrl}))
  {
    assert csv[i..][0] == csv[i];
    assert csv[i..][1..] == csv[i + 1..];
  }

  // ----------------------------------------------------------- updates

  /** The columns `update_candidate` may write. */
  const Updatable: seq<string> :=
    ["first_name", "last_name", "full_name", "email", "company", "position", "location", "skills", "experience_summary"]

  function InData(data: Fields): string -> bool
  {
    (k: string) => k in data
  }

  /** A record after `update_candidate`: each whitelisted column present in
    * `data` takes its value, and the update time is set. */
  function Updated(r: Record, data: Fields, now: string): (u: Record)
    ensures u.linkedinUrl == r.linkedinUrl && u.connectedOn == r.connectedOn
    ensures u.updatedAt == Some(now)
  {
    r.(firstName := if "first_name" in data then data["first_name"] else r.firstName,
       lastName := if "last_name" in data then data["last_name"] else r.lastName,
       fullName := if "full_name" in data then data["full_name"] else r.fullName,
       email := if "email" in data then data["email"] else r.email,
       company := if "company" in data then data["company"] else r.company,
       position := if "position" in data then data["position"] else r.position,
       location := if "location" in data then data["location"] else r.location,
       skills := if "skills" in data then data["skills"] else r.skills,
       experienceSummary := if "experience_summary" in data then data["experience_summary"] else r.experienceSummary,
       updatedAt := Some(now))
  }

  /** Each whitelisted column takes the value given for it, if any. */
  lemma UpdatedColumn(r: Record, data: Fields, now: string, k: string)
    requires k in Updatable
    ensures Column(Updated(r, data, now), k) == (if k in data then data[k] else Column(r, k))
  {
  }

  /** The value of a column by its SQL name. */
  function Column(r: Record, name: string): string
  {
    match name
    case "first_name" => r.firstName
    case "last_name" => r.lastName
    case "full_name" => r.fullName
    case "linkedin_url" => r.linkedinUrl
    case "email" => r.email
    case "company" => r.company
    case "position" => r.position
    case "connected_on" => r.connectedOn
    case "location" => r.location
    case "skills" => r.skills
    case "experience_summary" => r.experienceSummary
    case _ => ""
  }

  // ------------------------------------------------------------ search

  /** SQL `LIKE` under SQLite's default: `%` matches any run, `_` any one
    * character, letters compare without ASCII case. */
  predicate Like(s: string, p: string)
    decreases |s| + |p|
  {
    if |p| == 0 then |s| == 0
    else if p[0] == '%' then Like(s, p[1..]) || (|s| > 0 && Like(s[1..], p))
    else |s| > 0 && (p[0] == '_' || LowerChar(s[0]) == LowerChar(p[0])) && Like(s[1..], p[1..])
  }

  /** The search condition of `search_candidates`. */
  predicate Matches(r: Record, term: string)
  {
    var p := "%" + term + "%";
    Like(r.fullName, p) || Like(r.company, p) || Like(r.position, p)
  }

  /** The rows with ids 1..n that match, in id order. */
  function MatchingUpTo(rows: map<int, Record>, term: string, n: nat): (r: seq<(int, Record)>)
    ensures forall x :: x in r <==> 1 <= x.0 <= n && x.0 in rows && rows[x.0] == x.1 && Matches(x.1, term)
  {
    if n == 0 then []
    else MatchingUpTo(rows, term, n - 1) + (if n in rows && Matches(rows[n], term) then [(n, rows[n])] else [])
  }

  function NameOf(x: (int, Record)): string
  {
    x.1.fullName
  }

  lemma MatchingUpToStep(rows: map<int, Record>, term: string, n: nat)
    ensures MatchingUpTo(rows, term, n + 1) ==
      MatchingUpTo(rows, term, n) + (if n + 1 in rows && Matches(rows[n + 1], term) then [(n + 1, rows[n + 1])] else [])
  {
  }

  /** A term without wildcards matches exactly the fields that contain it,
    * ignoring ASCII case. */
  lemma LikeContains(s: string, term: string)
    requires '%' !in term && '_' !in term
    ensures Like(s, "%" + term + "%") <==> Contains(Lower(s), Lower(term))
  {
    assert "%" + term + "%" == "%" + (term + "%");
    if Like(s, "%" + (term + "%")) {
      LikeToContains(s, term);
    }
    if Contains(Lower(s), Lower(term)) {
      ContainsToLike(s, term);
    }
  }

  lemma LikeToContains(s: string, term: string)
    requires '%' !in term && '_' !in term
    requires Like(s, "%" + (term + "%"))
    ensures Contains(Lower(s), Lower(term))
  {
    var i := LikeAnyWitness(s, term + "%");
    LikePrefix(s[i..], term);
    assert s[i..][..|term|] == s[i..i + |term|];
    LowerSlice(s, i, i + |term|);
    ContainsAt(Lower(s), Lower(term), i);
  }

  lemma ContainsToLike(s: string, term: string)
    requires '%' !in term && '_' !in term
    requires Contains(Lower(s), Lower(term))
    ensures Like(s, "%" + (term + "%"))
  {
    ContainsIff(Lower(s), Lower(term));
    var i :| OccursAt(Lower(s), Lower(term), i);
    LowerSlice(s, i, i + |term|);
    assert s[i..][..|term|] == s[i..i + |term|];
    LikePrefix(s[i..], term);
    LikeAnyFrom(s, term + "%", i);
  }

  lemma LowerSlice(s: string, i: nat, j: nat)
    requires i <= j <= |s|
    ensures Lower(s)[i..j] == Lower(s[i..j])
  {
  }

  /** Two strings of one length agree without case exactly when their first
    * characters and their tails do. */
  lemma LowerCons(x: string, y: string)
    requires |x| == |y| > 0
    ensures Lower(x) == Lower(y) <==> LowerChar(x[0]) == LowerChar(y[0]) && Lower(x[1..]) == Lower(y[1..])
  {
    if LowerChar(x[0]) == LowerChar(y[0]) && Lower(x[1..]) == Lower(y[1..]) {
      forall i | 0 <= i < |x|
        ensures Lower(x)[i] == Lower(y)[i]
      {
        if i > 0 {
          assert Lower(x[1..])[i - 1] == Lower(y[1..])[i - 1];
        }
      }
    }
    if Lower(x) == Lower(y) {
      assert Lower(x)[0] == Lower(y)[0];
      forall i | 0 <= i < |x| - 1
        ensures Lower(x[1..])[i] == Lower(y[1..])[i]
      {
        assert Lower(x)[i + 1] == Lower(y)[i + 1];
      }
    }
  }

  /** `t%` matches exactly the strings that start with `t` (case aside). */
  lemma {:induction false} LikePrefix(s: string, t: string)
    requires '%' !in t && '_' !in t
    ensures Like(s, t + "%") <==> |t| <= |s| && Lower(s[..|t|]) == Lower(t)
    decreases |t|
  {
    if |t| == 0 {
      assert t + "%" == "%";
      LikeAll(s);
      assert s[..0] == [];
    } else {
      assert (t + "%")[0] == t[0];
      assert (t + "%")[1..] == t[1..] + "%";
      assert t[0] in t;
      if |s| > 0 {
        assert forall c :: c in t[1..] ==> c in t;
        LikePrefix(s[1..], t[1..]);
        if |t| <= |s| {
          LowerCons(s[..|t|], t);
          assert s[..|t|][1..] == s[1..][..|t| - 1];
        }
      }
    }
  }

  lemma {:induction false} LikeAll(s: string)
    ensures Like(s, "%")
    decreases |s|
  {
    assert "%"[1..] == "";
    if |s| > 0 {
      LikeAll(s[1..]);
    }
  }

  /** `%q` matches when `q` matches some suffix. */
  lemma {:induction false} LikeAnySuffix(s: string, q: string)
    ensures Like(s, "%" + q) <==> exists i :: 0 <= i <= |s| && Like(s[i..], q)
    decreases |s|
  {
    assert ("%" + q)[1..] == q;
    assert s[0..] == s;
    if |s| > 0 {
      LikeAnySuffix(s[1..], q);
      forall i | 1 <= i <= |s|
        ensures s[1..][i - 1..] == s[i..]
      {
      }
      if exists i :: 0 <= i <= |s| && Like(s[i..], q) {
        var i :| 0 <= i <= |s| && Like(s[i..], q);
        if i > 0 {
          assert Like(s[1..][i - 1..], q);
        }
      }
    }
  }

  lemma LikeAnyWitness(s: string, q: string) returns (i: nat)
    requires Like(s, "%" + q)
    ensures i <= |s| && Like(s[i..], q)
  {
    LikeAnySuffix(s, q);
    i :| 0 <= i <= |s| && Like(s[i..], q);
  }

  lemma LikeAnyFrom(s: string, q: string, i: nat)
    requires i <= |s| && Like(s[i..], q)
    ensures Like(s, "%" + q)
  {
    LikeAnySuffix(s, q);
  }

  // ------------------------------------------------------------- the store

  class CandidateDatabase {
    var rows: map<int, Record>
    var nextId: int

    ghost predicate Valid()
      reads this
    {
      Wf(rows, nextId)
    }

    constructor ()
      ensures Valid() && rows == map[] && nextId == 1
    {
      rows := map[];
      nextId := 1;
    }

    /** `SELECT id FROM candidates WHERE linkedin_url = ?`. */
    method FindByUrl(url: string) returns (r: Option<int>)
      requires Valid()
      ensures r.Some? ==> r.value in rows && rows[r.value].linkedinUrl == url
      ensures r.None? <==> url !in Urls(rows)
    {
      if exists id :: id in rows && rows[id].linkedinUrl == url {
        var id :| id in rows && rows[id].linkedinUrl == url;
        r := Some(id);
      } else {
        r := None;
      }
    }

    /** `add_candidate`: `None` for a blank name or URL; the id of the row
      * already holding the URL (compared as supplied, unstripped); otherwise
      * the id of one new row. */
    method AddCandidate(data: NewCandidate, today: string) returns (r: Option<int>)
      requires Valid()
      modifies this
      ensures Valid()
      ensures Blank(Get(data.fullName)) || Blank(Get(data.linkedinUrl)) ==>
        r.None? && rows == old(rows) && nextId == old(nextId)
      ensures !Blank(Get(data.fullName)) && !Blank(Get(data.linkedinUrl)) &&
              Get(data.linkedinUrl) in old(Urls(rows)) ==>
        r.Some? && r.value in rows && rows[r.value].linkedinUrl == Get(data.linkedinUrl) &&
        rows == old(rows) && nextId == old(nextId)
      ensures !Blank(Get(data.fullName)) && !Blank(Get(data.linkedinUrl)) &&
              Get(data.linkedinUrl) !in old(Urls(rows)) ==>
        r == Some(old(nextId)) && rows == old(rows)[old(nextId) := NewRecord(data, today)] &&
        nextId == old(nextId) + 1 && |rows| == |old(rows)| + 1
      ensures forall id :: id in old(rows) ==> id in rows && rows[id] == old(rows)[id]
    {
      if Blank(Get(data.fullName)) || Blank(Get(data.linkedinUrl)) {
        return None;
      }
      var existing := FindByUrl(Get(data.linkedinUrl));
      if existing.Some? {
        return existing;
      }
      var record := NewRecord(data, today);
      WfInsert(rows, nextId, record);
      rows := rows[nextId := record];
      r := Some(nextId);
      nextId := nextId + 1;
    }

    /** `sync_csv_to_db`: nothing without a file; otherwise the planned rows
      * are inserted in one transaction, or none when the sync is abandoned. */
    method SyncCsvToDb(csv: Option<seq<CsvRow>>)
      requires Valid()
      modifies this
      ensures Valid()
      ensures csv.None? || SyncPlan(csv.value, Urls(old(rows))).None? ==>
        rows == old(rows) && nextId == old(nextId)
      ensures csv.Some? && SyncPlan(csv.value, Urls(old(rows))).Some? ==>
        var recs := SyncPlan(csv.value, Urls(old(rows))).value;
        rows == Inserted(old(rows), old(nextId), recs) && nextId == old(nextId) + |recs|
    {
      if csv.None? {
        return;
      }
      var added := PlanSync(csv.value, Urls(rows));
      if added.None? {
        return;
      }
      SyncPlanFresh(csv.value, Urls(rows));
      InsertedWf(rows, nextId, added.value);
      rows, nextId := Inserted(rows, nextId, added.value), nextId + |added.value|;
    }

    /** `update_candidate`: false when `data` names no whitelisted column or
      * no row has the id; otherwise that row is updated. */
    method UpdateCandidate(id: int, data: Fields, now: string) returns (ok: bool)
      requires Valid()
      modifies this
      ensures Valid() && nextId == old(nextId)
      ensures ok <==> (exists k :: k in Updatable && k in data) && id in old(rows)
      ensures ok ==> rows == old(rows)[id := Updated(old(rows)[id], data, now)]
      ensures !ok ==> rows == old(rows)
    {
      var fields: seq<string> := [];
      for j := 0 to |Updatable|
        invariant fields == Filter(Updatable[..j], InData(data))
        invariant rows == old(rows) && nextId == old(nextId)
      {
        FilterSnoc(Updatable, j, InData(data));
        if Updatable[j] in data {
          fields := fields + [Updatable[j]];
        }
      }
      assert Updatable[..|Updatable|] == Updatable;
      if |fields| == 0 {
        assert forall k :: k in Updatable ==> k !in data;
        return false;
      }
      assert fields[0] in Updatable;
      if id !in rows {
        return false;
      }
      var u := Updated(rows[id], data, now);
      UpdateKeepsWf(rows, nextId, id, u);
      rows := rows[id := u];
      ok := true;
    }

    /** `delete_candidate`: true exactly when the row existed; it is gone. */
    method DeleteCandidate(id: int) returns (ok: bool)
      requires Valid()
      modifies this
      ensures Valid() && nextId == old(nextId)
      ensures ok <==> id in old(rows)
      ensures rows == old(rows) - {id}
      ensures ok ==> |rows| == |old(rows)| - 1
    {
      ok := id in rows;
      rows := rows - {id};
    }

    /** `get_candidates_count`. */
    method GetCandidatesCount() returns (n: nat)
      ensures n == |rows|
    {
      n := |rows|;
    }

    /** The `WHERE` clause of `search_candidates`, over the table in id order. */
    method CollectMatches(term: string) returns (found: seq<(int, Record)>)
      requires Valid()
      ensures found == MatchingUpTo(rows, term, nextId - 1)
    {
      found := [];
      for id := 1 to nextId
        invariant found == MatchingUpTo(rows, term, id - 1)
      {
        MatchingUpToStep(rows, term, id - 1);
        if id in rows && Matches(rows[id], term) {
          found := found + [(id, rows[id])];
        }
      }
    }

    /** `search_candidates`. */
    method SearchCandidates(term: string) returns (r: seq<(int, Record)>)
      requires Valid()
      ensures r == SearchResult(rows, term, nextId - 1)
    {
      var found := CollectMatches(term);
      r := SortByText(found, NameOf);
    }
  }

  /** The rows with ids 1..n that match `term`, ordered by full name (rows
    * with equal names come in no promised order; this model keeps id order). */
  function SearchResult(rows: map<int, Record>, term: string, n: nat): seq<(int, Record)>
  {
    SortByText(MatchingUpTo(rows, term, n), NameOf)
  }

  /** The search returns every matching row and nothing else, sorted by name. */
  lemma SearchResultSpec(rows: map<int, Record>, term: string, n: nat)
    requires forall id :: id in rows ==> 1 <= id <= n
    ensures SortedByText(SearchResult(rows, term, n), NameOf)
    ensures forall x :: x in SearchResult(rows, term, n) <==> x.0 in rows && rows[x.0] == x.1 && Matches(x.1, term)
  {
    SameElements(SearchResult(rows, term, n), MatchingUpTo(rows, term, n));
  }

  lemma SameElements<T>(a: seq<T>, b: seq<T>)
    requires multiset(a) == multiset(b)
    ensures forall x :: x in a <==> x in b
  {
    forall x
      ensures x in a <==> x in b
    {
      assert x in a <==> x in multiset(a);
      assert x in b <==> x in multiset(b);
    }
  }

  /** Changing a row other than its URL keeps the invariant. */
  lemma UpdateKeepsWf(rows: map<int, Record>, nextId: int, id: int, u: Record)
    requires Wf(rows, nextId) && id in rows && u.linkedinUrl == rows[id].linkedinUrl
    ensures Wf(rows[id := u], nextId)
  {
    var rows' := rows[id := u];
    forall a, b | a in rows' && b in rows' && rows'[a].linkedinUrl == rows'[b].linkedinUrl
      ensures a == b
    {
      assert rows'[a].linkedinUrl == rows[a].linkedinUrl;
      assert rows'[b].linkedinUrl == rows[b].linkedinUrl;
    }
  }
}
