/** The one-off import of `connections.csv` into the candidate store
  * (`bulk_import_candidates.py`): one pass over the rows, three counters. */
module BulkImport {
  import opened Wrappers
  import opened Text
  import opened Seqs
  import opened CandidateDb

  /** `str(cell).strip()`: an empty cell is pandas' NaN, whose text is "nan". */
  function CellText(c: Option<string>): string
  {
    if c.None? then "nan" else Strip(c.value)
  }

  /** `clean_value`: an empty cell, or a text whose lowercase is exactly
    * "nan", becomes ""; anything else is stripped (so " nan " gives "nan"). */
  function CleanValue(c: Option<string>): (r: string)
    ensures c.None? ==> r == ""
    ensures c.Some? && Lower(c.value) == "nan" ==> r == ""
    ensures c.Some? && Lower(c.value) != "nan" ==> r == Strip(c.value)
  {
    if c.None? || Lower(c.value) == "nan" then "" else Strip(c.value)
  }

  /** The first check of the loop: first name, last name and URL all blank. */
  predicate EmptyRow(row: CsvRow)
  {
    CellText(row.firstName) == "" && CellText(row.lastName) == "" && CellText(row.url) == ""
  }

  /** The second check: a blank URL or the text of an empty cell. */
  predicate MissingUrl(row: CsvRow)
  {
    CellText(row.url) == "" || CellText(row.url) == "nan"
  }

  /** `f"{first_name} {last_name}".strip()`, from the unclean name cells. */
  function FullName(row: CsvRow): string
  {
    Strip(CellText(row.firstName) + " " + CellText(row.lastName))
  }

  /** The dictionary handed to `add_candidate` for a row that passed both checks. */
  function ImportData(row: CsvRow): (d: NewCandidate)
    ensures Get(d.fullName) == FullName(row) && Get(d.linkedinUrl) == CellText(row.url)
    ensures d.location == Some("") && d.skills == Some("") && d.experienceSummary == Some("")
    ensures d.connectedOn == Some(CleanValue(row.connectedOn))
  {
    NewCandidate(Some(FullName(row)), Some(CellText(row.url)), Some(CleanValue(row.email)),
                 Some(CleanValue(row.company)), Some(CleanValue(row.position)),
                 Some(CleanValue(row.connectedOn)), Some(""), Some(""), Some(""))
  }

  /** The rows counted as added: past both checks, and with a name
    * `add_candidate` accepts. A URL already stored counts too, since
    * `add_candidate` then returns the existing id. */
  predicate Counted(row: CsvRow)
  {
    !EmptyRow(row) && !MissingUrl(row) && FullName(row) != ""
  }

  /** Two missing name cells give the name "nan nan". */
  lemma NanNames(row: CsvRow)
    requires row.firstName.None? && row.lastName.None?
    ensures FullName(row) == "nan nan"
  {
    assert CellText(row.firstName) == "nan" && CellText(row.lastName) == "nan";
    var s := "nan" + " " + "nan";
    assert s == "nan nan";
    assert IsStripped(s);
    StripOfStripped(s);
  }

  lemma NanFirstName(row: CsvRow)
    requires row.firstName.None? && row.lastName.Some? && Strip(row.lastName.value) != ""
    ensures FullName(row) == "nan " + Strip(row.lastName.value)
  {
    NanFirstText(row);
    NanPrefixStripped(Strip(row.lastName.value));
  }

  lemma NanFirstText(row: CsvRow)
    requires row.firstName.None?
    ensures FullName(row) == Strip("nan " + CellText(row.lastName))
  {
    assert "nan" + " " + CellText(row.lastName) == "nan " + CellText(row.lastName);
  }

  /** "nan " before a stripped, non-empty text is stripped. */
  lemma NanPrefixStripped(u: string)
    requires u != "" && IsStripped(u)
    ensures Strip("nan " + u) == "nan " + u
  {
    var s := "nan " + u;
    assert s[0] == 'n' && s[|s| - 1] == u[|u| - 1];
    StripOfStripped(s);
  }

  /** A row is counted exactly when `add_candidate` returns an id for it. */
  lemma CountedIffAccepted(row: CsvRow)
    requires !EmptyRow(row) && !MissingUrl(row)
    ensures Counted(row) <==> !Blank(Get(ImportData(row).fullName)) && !Blank(Get(ImportData(row).linkedinUrl))
  {
    StripIdempotent(CellText(row.firstName) + " " + CellText(row.lastName));
    if row.url.Some? {
      StripIdempotent(row.url.value);
    } else {
      StripOfStripped("nan");
    }
  }

  /** Adding a row under a fresh id keeps every stored URL and adds its own. */
  lemma UrlsInsert(rows: map<int, Record>, id: int, r: Record)
    requires id !in rows
    ensures Urls(rows) <= Urls(rows[id := r]) && r.linkedinUrl in Urls(rows[id := r])
  {
    var m := rows[id := r];
    forall u | u in Urls(rows)
      ensures u in Urls(m)
    {
      var k :| k in rows && rows[k].linkedinUrl == u;
      assert m[k] == rows[k];
    }
    assert m[id] == r;
  }

  /** A lookup that found `url` leaves it stored. */
  lemma FoundUrl(rows: map<int, Record>, id: int, url: string)
    requires id in rows && rows[id].linkedinUrl == url
    ensures url in Urls(rows)
  {
  }

  /** A table that keeps every row of another keeps its URLs. */
  lemma KeptUrls(a: map<int, Record>, b: map<int, Record>)
    requires forall id :: id in a ==> id in b && b[id] == a[id]
    ensures Urls(a) <= Urls(b)
  {
    forall u | u in Urls(a)
      ensures u in Urls(b)
    {
      var id :| id in a && a[id].linkedinUrl == u;
      assert b[id] == a[id];
    }
  }

  /** One row of the import loop: the stored URLs only grow. */
  method ImportStep(db: CandidateDatabase, row: CsvRow, today: string, ghost rows0: map<int, Record>)
    returns (counted: bool)
    requires db.Valid()
    requires forall id :: id in rows0 ==> id in db.rows && db.rows[id] == rows0[id]
    modifies db
    ensures db.Valid()
    ensures counted == Counted(row)
    ensures forall id :: id in rows0 ==> id in db.rows && db.rows[id] == rows0[id]
    ensures Urls(old(db.rows)) <= Urls(db.rows)
    ensures counted ==> CellText(row.url) in Urls(db.rows)
  {
    ghost var before := db.rows;
    counted := ImportRow(db, row, today);
    KeptUrls(before, db.rows);
  }

  /** `bulk_import_candidates`: `false` without a file; otherwise every row is
    * added, skipped or an error, and stored candidates are never changed. */
  method BulkImportCandidates(db: CandidateDatabase, csv: Option<seq<CsvRow>>, today: string)
    returns (ok: bool, added: nat, skipped: nat, errors: nat)
    requires db.Valid()
    modifies db
    ensures db.Valid()
    ensures csv.None? ==> !ok && added == 0 && skipped == 0 && errors == 0 &&
                          db.rows == old(db.rows) && db.nextId == old(db.nextId)
    ensures csv.Some? ==> ok && added + skipped + errors == |csv.value| && errors == 0
    ensures csv.Some? ==> added == |Filter(csv.value, Counted)|
    ensures forall id :: id in old(db.rows) ==> id in db.rows && db.rows[id] == old(db.rows)[id]
    ensures csv.Some? ==> forall row :: row in csv.value && Counted(row) ==> CellText(row.url) in Urls(db.rows)
  {
    added, skipped, errors := 0, 0, 0;
    if csv.None? {
      return false, added, skipped, errors;
    }
    added, skipped := ImportRows(db, csv.value, today);
    CountFilter(csv.value, Counted);
    ImagesInAll(csv.value, Counted, UrlText, Urls(db.rows));
    ok := true;
  }

  /** The loop over the rows; `counts` is `Counted`, passed as a value so
    * that the loop reasons about it only through `ImportStep`. */
  method ImportRows(db: CandidateDatabase, rows: seq<CsvRow>, today: string)
    returns (added: nat, skipped: nat)
    requires db.Valid()
    modifies db
    ensures db.Valid()
    ensures added + skipped == |rows| && added == Count(rows, Counted)
    ensures forall id :: id in old(db.rows) ==> id in db.rows && db.rows[id] == old(db.rows)[id]
    ensures ImagesIn(rows, Counted, UrlText, Urls(db.rows))
  {
    added, skipped := 0, 0;
    for i := 0 to |rows|
      invariant db.Valid()
      invariant added + skipped == i
      invariant added == Count(rows[..i], Counted)
      invariant forall id :: id in old(db.rows) ==> id in db.rows && db.rows[id] == old(db.rows)[id]
      invariant ImagesIn(rows[..i], Counted, UrlText, Urls(db.rows))
    {
      CountSnoc(rows, i, Counted);
      ghost var before := Urls(db.rows);
      var counted := ImportStep(db, rows[i], today, old(db.rows));
      ImagesInGrow(rows[..i], Counted, UrlText, before, Urls(db.rows));
      ImagesInSnoc(rows, i, Counted, UrlText, Urls(db.rows));
      if counted {
        added := added + 1;
      } else {
        skipped := skipped + 1;
      }
    }
    assert rows[..|rows|] == rows;
  }

  /** The text of the URL cell. */
  function UrlText(row: CsvRow): string
  {
    CellText(row.url)
  }

  /** The body of the loop for one row: true when the row counts as added. */
  method ImportRow(db: CandidateDatabase, row: CsvRow, today: string) returns (counted: bool)
    requires db.Valid()
    modifies db
    ensures db.Valid()
    ensures counted == Counted(row)
    ensures forall id :: id in old(db.rows) ==> id in db.rows && db.rows[id] == old(db.rows)[id]
    ensures counted ==> CellText(row.url) in Urls(db.rows)
  {
    var first := CellText(row.firstName);
    var last := CellText(row.lastName);
    var url := CellText(row.url);
    if first == "" && last == "" && url == "" {
      return false;
    }
    if url == "" || url == "nan" {
      return false;
    }
    var data := ImportData(row);
    CountedIffAccepted(row);
    ghost var before := db.rows;
    ghost var slot := db.nextId;
    var id := db.AddCandidate(data, today);
    if id.Some? {
      if db.rows == before {
        FoundUrl(db.rows, id.value, url);
      } else {
        UrlsInsert(before, slot, NewRecord(data, today));
      }
    }
    counted := id.Some?;
  }
}
