/**
 * Job records, the first-seen de-duplication of scraped records by link,
 * and the "new rows" filter that every sheet uploader applies against the
 * links already stored in column 9 of the sheet.
 */
module Listing {
  import opened Text

  /** One scraped listing; the fields in the order of the sheet's columns. */
  datatype JobRecord = JobRecord(
    dateAdded: string,
    title: string,
    company: string,
    location: string,
    requirements: string,
    salary: string,
    contractType: string,
    workingHours: string,
    link: string,
    source: string)

  /** The placeholders the scrapers write into a record field they could not read. */
  const NOT_AVAILABLE := "N/A"
  const NEGOTIABLE := "توافقی"
  const STANDARD_HOURS := "استاندارد"

  function Links(jobs: seq<JobRecord>): (r: seq<string>)
    ensures |r| == |jobs|
    ensures forall i :: 0 <= i < |jobs| ==> r[i] == jobs[i].link
  {
    seq(|jobs|, i requires 0 <= i < |jobs| => jobs[i].link)
  }

  /** No two records share a link. */
  predicate DistinctLinks(jobs: seq<JobRecord>) {
    forall i, j :: 0 <= i < j < |jobs| ==> jobs[i].link != jobs[j].link
  }

  // ---------------------------------------------------------------------
  // First-seen de-duplication by link
  // ---------------------------------------------------------------------

  /**
   * `if job_data and not any(job['link'] == job_data['link'] for job in jobs):
   * jobs.append(job_data)`; a card that failed to parse is `None`.
   */
  function AddIfNewLink(jobs: seq<JobRecord>, parsed: Option<JobRecord>): seq<JobRecord> {
    if parsed.Some? && parsed.value.link !in Links(jobs) then jobs + [parsed.value] else jobs
  }

  /** The scrape loop over all parsed cards of one page, in page order. */
  function AddAllNewLinks(jobs: seq<JobRecord>, parsed: seq<Option<JobRecord>>): seq<JobRecord>
    decreases |parsed|
  {
    if |parsed| == 0 then jobs else AddAllNewLinks(AddIfNewLink(jobs, parsed[0]), parsed[1..])
  }

  lemma AddIfNewLinkKeepsDistinct(jobs: seq<JobRecord>, parsed: Option<JobRecord>)
    requires DistinctLinks(jobs)
    ensures DistinctLinks(AddIfNewLink(jobs, parsed))
    ensures Extends(AddIfNewLink(jobs, parsed), jobs)
    ensures |AddIfNewLink(jobs, parsed)| <= |jobs| + 1
    ensures parsed.Some? ==> parsed.value.link in Links(AddIfNewLink(jobs, parsed))
  {
    var r := AddIfNewLink(jobs, parsed);
    if parsed.Some? && parsed.value.link !in Links(jobs) {
      assert Links(r) == Links(jobs) + [parsed.value.link];
      forall i, j | 0 <= i < j < |r|
        ensures r[i].link != r[j].link
      {
        if j == |jobs| {
          assert r[i].link == Links(jobs)[i];
        }
      }
    }
  }

  /** `jobs` is an initial segment of `r` (records are only ever appended). */
  predicate Extends(r: seq<JobRecord>, jobs: seq<JobRecord>) {
    |jobs| <= |r| && r[..|jobs|] == jobs
  }

  /**
   * The scraper's job list never holds two records with the same link, keeps
   * everything it held before, and afterwards holds a record for the link of
   * every card that parsed.
   */
  lemma {:induction false} AddAllNewLinksSpec(jobs: seq<JobRecord>, parsed: seq<Option<JobRecord>>)
    requires DistinctLinks(jobs)
    ensures DistinctLinks(AddAllNewLinks(jobs, parsed))
    ensures Extends(AddAllNewLinks(jobs, parsed), jobs)
    ensures |AddAllNewLinks(jobs, parsed)| <= |jobs| + |parsed|
    ensures forall k :: 0 <= k < |parsed| && parsed[k].Some? ==> parsed[k].value.link in Links(AddAllNewLinks(jobs, parsed))
    decreases |parsed|
  {
    if |parsed| > 0 {
      var next := AddIfNewLink(jobs, parsed[0]);
      AddIfNewLinkKeepsDistinct(jobs, parsed[0]);
      AddAllNewLinksSpec(next, parsed[1..]);
      var r := AddAllNewLinks(jobs, parsed);
      assert r == AddAllNewLinks(next, parsed[1..]);
      assert r[..|jobs|] == r[..|next|][..|jobs|];
      forall k | 0 <= k < |parsed| && parsed[k].Some?
        ensures parsed[k].value.link in Links(r)
      {
        if k == 0 {
          var i :| 0 <= i < |next| && Links(next)[i] == parsed[0].value.link;
          assert r[i] == next[i];
          assert Links(r)[i] == parsed[0].value.link;
        } else {
          assert parsed[k] == parsed[1..][k - 1];
        }
      }
    }
  }

  /** The `jobs` list of one scraper object. */
  class JobList {
    var jobs: seq<JobRecord>

    ghost predicate Valid()
      reads this
    {
      DistinctLinks(jobs)
    }

    constructor ()
      ensures jobs == []
      ensures Valid()
    {
      jobs := [];
    }

    /** Appends the record unless a stored record already has its link. */
    method AddIfNew(parsed: Option<JobRecord>)
      requires Valid()
      modifies this
      ensures jobs == AddIfNewLink(old(jobs), parsed)
      ensures Valid()
    {
      AddIfNewLinkKeepsDistinct(jobs, parsed);
      if parsed.Some? {
        var known := false;
        var i := 0;
        while i < |jobs|
          invariant 0 <= i <= |jobs|
          invariant known <==> parsed.value.link in Links(jobs)[..i]
        {
          if jobs[i].link == parsed.value.link {
            known := true;
          }
          assert Links(jobs)[..i + 1] == Links(jobs)[..i] + [jobs[i].link];
          i := i + 1;
        }
        assert Links(jobs)[..|jobs|] == Links(jobs);
        if !known {
          jobs := jobs + [parsed.value];
        }
      }
    }

    /** The per-page loop `for card in job_cards: ...` of the Jobinja scrapers. */
    method AddCards(parsed: seq<Option<JobRecord>>)
      requires Valid()
      modifies this
      ensures jobs == AddAllNewLinks(old(jobs), parsed)
      ensures Valid()
    {
      var k := 0;
      while k < |parsed|
        invariant 0 <= k <= |parsed|
        invariant Valid()
        invariant AddAllNewLinks(jobs, parsed[k..]) == AddAllNewLinks(old(jobs), parsed)
      {
        assert parsed[k..][1..] == parsed[k + 1..];
        AddIfNew(parsed[k]);
        k := k + 1;
      }
    }
  }

  // ---------------------------------------------------------------------
  // Sheet upload: rows whose link is not yet stored
  // ---------------------------------------------------------------------

  /** The ten cells appended for one record; the link is cell 9 (index 8). */
  function SheetRow(job: JobRecord): (row: seq<string>)
    ensures |row| == 10 && row[8] == job.link
  {
    [job.dateAdded, job.title, job.company, job.location, job.requirements,
     job.salary, job.contractType, job.workingHours, job.link, job.source]
  }

  function SheetRows(jobs: seq<JobRecord>): (rows: seq<seq<string>>)
    ensures |rows| == |jobs|
    ensures forall i :: 0 <= i < |jobs| ==> rows[i] == SheetRow(jobs[i])
  {
    seq(|jobs|, i requires 0 <= i < |jobs| => SheetRow(jobs[i]))
  }

  /**
   * `set(row[8] for row in all_values[1:] if len(row) > 8)`, or the empty set
   * when the sheet has no data row.
   */
  function LinksInRows(allValues: seq<seq<string>>): set<string> {
    if |allValues| > 1 then
      set i | 1 <= i < |allValues| && |allValues[i]| > 8 :: allValues[i][8]
    else {}
  }

  /** `set(sheet.col_values(9)[1:])`: every value of the column below the header. */
  function LinksInColumn(column: seq<string>): set<string> {
    set i | 1 <= i < |column| :: column[i]
  }

  /** Column 9 as the sheet reports it: a short row has an empty cell there. */
  function Column9(allValues: seq<seq<string>>): (column: seq<string>)
    ensures |column| == |allValues|
  {
    seq(|allValues|, i requires 0 <= i < |allValues| => if |allValues[i]| > 8 then allValues[i][8] else "")
  }

  /** `[job for job in jobs if job['link'] not in existing_links]` */
  function NewJobs(jobs: seq<JobRecord>, existing: set<string>): seq<JobRecord>
    decreases |jobs|
  {
    if |jobs| == 0 then []
    else if jobs[0].link !in existing then [jobs[0]] + NewJobs(jobs[1..], existing)
    else NewJobs(jobs[1..], existing)
  }

  /** Number of records whose link is already stored: the "skipped" count. */
  function CountKnown(jobs: seq<JobRecord>, existing: set<string>): nat
    decreases |jobs|
  {
    if |jobs| == 0 then 0
    else (if jobs[0].link in existing then 1 else 0) + CountKnown(jobs[1..], existing)
  }

  /**
   * The filter keeps exactly the records whose link is not stored, in their
   * original order, and what it drops is counted by `CountKnown`.
   */
  lemma {:induction false} NewJobsSpec(jobs: seq<JobRecord>, existing: set<string>)
    ensures forall j :: j in NewJobs(jobs, existing) <==> j in jobs && j.link !in existing
    ensures |NewJobs(jobs, existing)| + CountKnown(jobs, existing) == |jobs|
    ensures forall j :: j in NewJobs(jobs, existing) ==> j.link !in existing
    decreases |jobs|
  {
    if |jobs| > 0 {
      NewJobsSpec(jobs[1..], existing);
      assert jobs == [jobs[0]] + jobs[1..];
    }
  }

  /** Keeping order: the filtered list is a subsequence that skips only stored links. */
  lemma {:induction false} NewJobsAllNew(jobs: seq<JobRecord>, existing: set<string>)
    requires forall i :: 0 <= i < |jobs| ==> jobs[i].link !in existing
    ensures NewJobs(jobs, existing) == jobs
    decreases |jobs|
  {
    if |jobs| > 0 {
      NewJobsAllNew(jobs[1..], existing);
      assert jobs == [jobs[0]] + jobs[1..];
    }
  }

  lemma {:induction false} NewJobsNoneNew(jobs: seq<JobRecord>, existing: set<string>)
    requires forall i :: 0 <= i < |jobs| ==> jobs[i].link in existing
    ensures NewJobs(jobs, existing) == []
    decreases |jobs|
  {
    if |jobs| > 0 {
      NewJobsNoneNew(jobs[1..], existing);
    }
  }

  /** The header row and rows with at most eight cells never contribute a link. */
  lemma LinksInRowsIgnoresHeader(header: seq<string>, other: seq<string>, rows: seq<seq<string>>)
    ensures LinksInRows([header] + rows) == LinksInRows([other] + rows)
  {
    var a, b := [header] + rows, [other] + rows;
    forall i | 1 <= i < |a|
      ensures a[i] == b[i]
    {
    }
  }

  /** A link reported by the row scan is exactly one stored in a long enough data row. */
  lemma LinksInRowsMember(allValues: seq<seq<string>>, link: string)
    ensures link in LinksInRows(allValues) <==>
      exists i :: 1 <= i < |allValues| && |allValues[i]| > 8 && allValues[i][8] == link
  {
  }

  /**
   * Reading the whole sheet and reading column 9 agree on every non-empty
   * link, so the two filtering styles admit the same records with a
   * non-empty link.
   */
  lemma ColumnAgreesWithRows(allValues: seq<seq<string>>)
    ensures LinksInColumn(Column9(allValues)) - {""} == LinksInRows(allValues) - {""}
  {
    var column := Column9(allValues);
    forall l | l in LinksInColumn(column) - {""}
      ensures l in LinksInRows(allValues)
    {
      var i :| 1 <= i < |column| && column[i] == l;
      assert |allValues[i]| > 8;
    }
    forall l | l in LinksInRows(allValues) - {""}
      ensures l in LinksInColumn(column)
    {
      var i :| 1 <= i < |allValues| && |allValues[i]| > 8 && allValues[i][8] == l;
      assert column[i] == l;
    }
  }

  /** Appending the rows of some records adds exactly their links to the stored set. */
  lemma LinksAfterAppend(allValues: seq<seq<string>>, added: seq<JobRecord>)
    requires |allValues| >= 1
    ensures LinksInRows(allValues + SheetRows(added)) == LinksInRows(allValues) + set j | j in added :: j.link
  {
    var after := allValues + SheetRows(added);
    forall l | l in LinksInRows(after)
      ensures l in LinksInRows(allValues) || exists j :: j in added && j.link == l
    {
      var i :| 1 <= i < |after| && |after[i]| > 8 && after[i][8] == l;
      if i >= |allValues| {
        assert added[i - |allValues|].link == l;
      } else {
        assert allValues[i] == after[i];
      }
    }
    forall l | l in LinksInRows(allValues)
      ensures l in LinksInRows(after)
    {
      var i :| 1 <= i < |allValues| && |allValues[i]| > 8 && allValues[i][8] == l;
      assert after[i] == allValues[i];
    }
    forall j | j in added
      ensures j.link in LinksInRows(after)
    {
      var k :| 0 <= k < |added| && added[k] == j;
      assert after[|allValues| + k] == SheetRow(j);
    }
  }

  /** What a save does, given the sheet as read (`None` when reading failed). */
  datatype SavePlan =
    | NothingToSave
    | Upload(rows: seq<JobRecord>)
    | CsvFallback(all: seq<JobRecord>)

  /**
   * Enhanced_Job_Scraper_with_AntiDetection.py: a failed read counts as an
   * empty sheet; nothing is sent when every link is stored.
   */
  function SavePlanEnhanced(jobs: seq<JobRecord>, allValues: Option<seq<seq<string>>>): (p: SavePlan)
    ensures p.CsvFallback? == false
    ensures p.Upload? ==> p.rows != [] && forall j :: j in p.rows <==> j in jobs && (allValues.Some? ==> j.link !in LinksInRows(allValues.value))
    ensures p.NothingToSave? ==> forall j :: j in jobs && allValues.Some? ==> j.link in LinksInRows(allValues.value)
    ensures p.NothingToSave? && allValues.None? ==> jobs == []
  {
    var existing := if allValues.Some? then LinksInRows(allValues.value) else {};
    NewJobsSpec(jobs, existing);
    var unseen := NewJobs(jobs, existing);
    if unseen == [] then NothingToSave else Upload(unseen)
  }

  /**
   * Jobinja_scraper.py and scraper/fixed_scraper.py: the column-9 values
   * below the header (`None` when reading failed) filter the records; the
   * plan is always an upload, possibly of nothing.
   */
  function SavePlanColumn(jobs: seq<JobRecord>, column: Option<seq<string>>): (p: SavePlan)
    ensures p.Upload?
    ensures forall j :: j in p.rows <==> j in jobs && (column.Some? ==> j.link !in LinksInColumn(column.value))
  {
    var existing := if column.Some? then LinksInColumn(column.value) else {};
    NewJobsSpec(jobs, existing);
    Upload(NewJobs(jobs, existing))
  }

  /** The "Skipped N duplicates" figure reported after a column-9 upload. */
  function SkippedCount(jobs: seq<JobRecord>, column: Option<seq<string>>): (n: int)
    ensures n >= 0
    ensures n == CountKnown(jobs, if column.Some? then LinksInColumn(column.value) else {})
  {
    var existing := if column.Some? then LinksInColumn(column.value) else {};
    NewJobsSpec(jobs, existing);
    |jobs| - |NewJobs(jobs, existing)|
  }

  /**
   * gitignore/scraper.py: an empty list returns at once; a failed read of
   * the sheet ends in the CSV fallback with the whole list.
   */
  function SavePlanBasic(jobs: seq<JobRecord>, allValues: Option<seq<seq<string>>>): (p: SavePlan)
    ensures jobs == [] ==> p.NothingToSave?
    ensures jobs != [] && allValues.None? ==> p == CsvFallback(jobs)
    ensures p.Upload? ==> allValues.Some? && p.rows != [] &&
                          (forall j :: j in p.rows <==> j in jobs && j.link !in LinksInRows(allValues.value))
    ensures p.NothingToSave? && allValues.Some? ==> forall j :: j in jobs ==> j.link in LinksInRows(allValues.value)
  {
    if jobs == [] then NothingToSave
    else if allValues.None? then CsvFallback(jobs)
    else
      NewJobsSpec(jobs, LinksInRows(allValues.value));
      var unseen := NewJobs(jobs, LinksInRows(allValues.value));
      if unseen == [] then NothingToSave else Upload(unseen)
  }

  /**
   * Saving twice in a row uploads nothing the second time: once the new rows
   * are appended below a header, every link of the list is stored.
   */
  lemma SaveIsIdempotent(jobs: seq<JobRecord>, allValues: seq<seq<string>>)
    requires |allValues| >= 1
    requires SavePlanEnhanced(jobs, Some(allValues)).Upload?
    ensures SavePlanEnhanced(jobs, Some(allValues + SheetRows(SavePlanEnhanced(jobs, Some(allValues)).rows))) == NothingToSave
  {
    var existing := LinksInRows(allValues);
    var unseen := SavePlanEnhanced(jobs, Some(allValues)).rows;
    var after := allValues + SheetRows(unseen);
    LinksAfterAppend(allValues, unseen);
    NewJobsSpec(jobs, existing);
    NewJobsSpec(jobs, LinksInRows(after));
    forall i | 0 <= i < |jobs|
      ensures jobs[i].link in LinksInRows(after)
    {
      if jobs[i].link !in existing {
        assert jobs[i] in unseen;
      }
    }
    NewJobsNoneNew(jobs, LinksInRows(after));
  }
}
