/**
 * The stand-alone JobVision scraper (Jobvision_scraper.py): the bounded
 * retry login controller with its slider-captcha solver, the logged-in URL
 * test, job-id extraction and the link filter of the keyword search.
 *
 * The browser is a `Driver` object whose methods are oracles: each returns
 * an unconstrained result and appends what it did to a ghost `trace`.
 * Everything the controller promises is stated over the part of the trace
 * that one call adds.
 */
module JobVision {
  import opened Text
  import opened Listing
  import opened Motion

  // ---------------------------------------------------------------------
  // Job ids: `re.search(r'/jobs/(\d+)', url)`
  // ---------------------------------------------------------------------

  const JOBS: string := "/jobs/"

  /** The longest run of digits at the start of `s` (the greedy `\d+`). */
  function DigitRun(s: string): (d: string)
    ensures StartsWith(s, d)
    ensures forall i :: 0 <= i < |d| ==> IsAsciiDigit(d[i])
    ensures |d| < |s| ==> !IsAsciiDigit(s[|d|])
    decreases |s|
  {
    if |s| > 0 && IsAsciiDigit(s[0]) then [s[0]] + DigitRun(s[1..]) else []
  }

  /** The pattern matches at position `i`: "/jobs/" followed by a digit. */
  predicate MatchAt(s: string, i: int) {
    0 <= i && i + |JOBS| < |s| && StartsWith(s[i..], JOBS) && IsAsciiDigit(s[i + |JOBS|])
  }

  /** The captured group of the leftmost match, scanning from the front. */
  function FirstJobId(s: string): (r: Option<string>)
    ensures r.Some? ==> IsDigitString(r.value)
    decreases |s|
  {
    if |s| > |JOBS| && StartsWith(s, JOBS) && IsAsciiDigit(s[|JOBS|]) then Some(DigitRun(s[|JOBS|..]))
    else if |s| == 0 then None
    else FirstJobId(s[1..])
  }

  lemma MatchAtShift(s: string, i: nat)
    requires |s| > 0
    ensures MatchAt(s[1..], i) <==> MatchAt(s, i + 1)
  {
    if i + 1 <= |s| {
      assert s[1..][i..] == s[i + 1..];
    }
  }

  /**
   * `FirstJobId` is the group of the leftmost match: `k` is the first
   * position where the pattern matches and the id is the digit run after it;
   * without a match there is no such position at all.
   */
  lemma {:induction false} FirstJobIdLeftmost(s: string) returns (k: nat)
    ensures FirstJobId(s).Some? ==>
              MatchAt(s, k) && (forall j :: 0 <= j < k ==> !MatchAt(s, j)) &&
              FirstJobId(s).value == DigitRun(s[k + |JOBS|..])
    ensures FirstJobId(s).None? ==> forall j :: 0 <= j <= |s| ==> !MatchAt(s, j)
    decreases |s|
  {
    if |s| > |JOBS| && StartsWith(s, JOBS) && IsAsciiDigit(s[|JOBS|]) {
      k := 0;
      assert s[0..] == s;
    } else if |s| == 0 {
      k := 0;
    } else {
      assert !MatchAt(s, 0) by { assert s[0..] == s; }
      var k' := FirstJobIdLeftmost(s[1..]);
      k := k' + 1;
      forall j | 1 <= j <= |s|
        ensures MatchAt(s, j) <==> MatchAt(s[1..], j - 1)
      {
        MatchAtShift(s, j - 1);
      }
      if FirstJobId(s).Some? {
        assert s[1..][k' + |JOBS|..] == s[k + |JOBS|..];
      }
    }
  }

  /** `extract_job_id_from_url`: the captured digits, or the whole url when nothing matches. */
  function ExtractJobId(url: string): (id: string)
    ensures FirstJobId(url).None? ==> id == url
    ensures FirstJobId(url).Some? ==> IsDigitString(id) && |id| < |url|
  {
    match FirstJobId(url)
    case Some(digits) => FirstJobIdShorter(url); digits
    case None => url
  }

  lemma {:induction false} FirstJobIdShorter(s: string)
    ensures FirstJobId(s).Some? ==> |FirstJobId(s).value| < |s|
    decreases |s|
  {
    if |s| > |JOBS| && StartsWith(s, JOBS) && IsAsciiDigit(s[|JOBS|]) {
    } else if |s| > 0 {
      FirstJobIdShorter(s[1..]);
    }
  }

  /** A string without '/' holds no match. */
  lemma {:induction false} NoSlashNoMatch(s: string)
    requires '/' !in s
    ensures FirstJobId(s).None?
    decreases |s|
  {
    if |s| > 0 {
      assert s[0] != '/';
      assert !StartsWith(s, JOBS);
      assert forall c :: c in s[1..] ==> c in s;
      NoSlashNoMatch(s[1..]);
    }
  }

  /** An extracted id is its own id: extracting twice changes nothing. */
  lemma ExtractJobIdIdempotent(url: string)
    ensures ExtractJobId(ExtractJobId(url)) == ExtractJobId(url)
  {
    var id := ExtractJobId(url);
    if FirstJobId(url).Some? {
      assert forall i :: 0 <= i < |id| ==> id[i] != '/' by {
        forall i | 0 <= i < |id| ensures id[i] != '/' {
          assert IsAsciiDigit(id[i]);
        }
      }
      NoSlashNoMatch(id);
    }
  }

  // ---------------------------------------------------------------------
  // The logged-in test: `"account.jobvision.ir" not in current_url`
  // ---------------------------------------------------------------------

  const ACCOUNT_HOST: string := "account.jobvision.ir"
  const LOGIN_URL: string := "https://account.jobvision.ir/Candidate"

  predicate LoggedInUrl(url: string) {
    !Contains(url, ACCOUNT_HOST)
  }

  lemma ContainsAt(s: string, p: string, i: nat)
    requires i <= |s| && StartsWith(s[i..], p)
    ensures Contains(s, p)
    decreases i
  {
    if i > 0 {
      assert s[1..][i - 1..] == s[i..];
      ContainsAt(s[1..], p, i - 1);
    } else {
      assert s[0..] == s;
    }
  }

  /** The login page itself never counts as logged in. */
  lemma LoginPageNotLoggedIn()
    ensures !LoggedInUrl(LOGIN_URL)
  {
    assert LOGIN_URL[8..][..|ACCOUNT_HOST|] == ACCOUNT_HOST;
    ContainsAt(LOGIN_URL, ACCOUNT_HOST, 8);
  }

  // ---------------------------------------------------------------------
  // The link filter of `scrape_jobvision`
  // ---------------------------------------------------------------------

  const KEYWORD_PAGE: string := "/jobs/keyword"

  /**
   * One anchor's `href` after the filter: missing or empty hrefs are
   * dropped, the query is cut off, and only "/jobs/" links that are not the
   * search page itself remain.
   */
  function Candidate(href: Option<string>): (c: Option<string>)
    ensures c.Some? ==> href.Some? && StartsWith(href.value, c.value)
    ensures c.Some? ==> '?' !in c.value && Contains(c.value, JOBS) && !EndsWith(c.value, KEYWORD_PAGE)
    ensures (href.Some? && href.value != [] && '?' !in href.value && Contains(href.value, JOBS) &&
             !EndsWith(href.value, KEYWORD_PAGE)) ==> c == href
  {
    if href.None? || href.value == [] then None
    else
      var clean := BeforeFirst(href.value, '?');
      if !Contains(clean, JOBS) then None
      else if Contains(clean, "keyword") && EndsWith(clean, KEYWORD_PAGE) then None
      else KeywordPageContains(clean); Some(clean)
  }

  /** A link ending in "/jobs/keyword" always contains "keyword". */
  lemma KeywordPageContains(s: string)
    ensures EndsWith(s, KEYWORD_PAGE) ==> Contains(s, "keyword")
  {
    if EndsWith(s, KEYWORD_PAGE) {
      assert s[|s| - 7..] == s[|s| - 13..][6..] == KEYWORD_PAGE[6..] == "keyword";
      assert s[|s| - 7..][..7] == "keyword";
      ContainsAt(s, "keyword", |s| - 7);
    }
  }

  function Ids(links: seq<string>): (ids: seq<string>)
    ensures |ids| == |links|
    ensures forall i :: 0 <= i < |links| ==> ids[i] == ExtractJobId(links[i])
  {
    seq(|links|, i requires 0 <= i < |links| => ExtractJobId(links[i]))
  }

  /** Admit a candidate when its id is neither already seen nor already scraped. */
  function AddLink(links: seq<string>, c: Option<string>, scraped: set<string>): seq<string> {
    if c.Some? && ExtractJobId(c.value) !in Ids(links) && ExtractJobId(c.value) !in scraped
    then links + [c.value] else links
  }

  /** `unique_links` after the given candidates. */
  function SelectLinks(cands: seq<Option<string>>, scraped: set<string>): seq<string>
    decreases |cands|
  {
    if |cands| == 0 then []
    else AddLink(SelectLinks(cands[..|cands| - 1], scraped), cands[|cands| - 1], scraped)
  }

  function Candidates(hrefs: seq<Option<string>>): (cs: seq<Option<string>>)
    ensures |cs| == |hrefs|
    ensures forall i :: 0 <= i < |hrefs| ==> cs[i] == Candidate(hrefs[i])
  {
    seq(|hrefs|, i requires 0 <= i < |hrefs| => Candidate(hrefs[i]))
  }

  /** Candidate `k` carries an id no earlier candidate carried. */
  predicate FirstWithId(cands: seq<Option<string>>, k: int)
    requires 0 <= k < |cands|
  {
    cands[k].Some? &&
    forall m :: 0 <= m < k && cands[m].Some? ==> ExtractJobId(cands[m].value) != ExtractJobId(cands[k].value)
  }

  predicate FromFirstWithId(cands: seq<Option<string>>, link: string) {
    exists k :: 0 <= k < |cands| && FirstWithId(cands, k) && cands[k] == Some(link)
  }

  /** Distinct ids, none already scraped, and never more links than candidates. */
  lemma {:induction false} SelectLinksDistinct(cands: seq<Option<string>>, scraped: set<string>)
    ensures forall i, j :: 0 <= i < j < |SelectLinks(cands, scraped)| ==>
              ExtractJobId(SelectLinks(cands, scraped)[i]) != ExtractJobId(SelectLinks(cands, scraped)[j])
    ensures forall i :: 0 <= i < |SelectLinks(cands, scraped)| ==> ExtractJobId(SelectLinks(cands, scraped)[i]) !in scraped
    ensures forall l :: l in SelectLinks(cands, scraped) ==> Some(l) in cands
    ensures |SelectLinks(cands, scraped)| <= |cands|
    decreases |cands|
  {
    if |cands| > 0 {
      var n := |cands| - 1;
      var c := cands[n];
      var prev := SelectLinks(cands[..n], scraped);
      SelectLinksDistinct(cands[..n], scraped);
      assert forall l :: Some(l) in cands[..n] ==> Some(l) in cands;
      if c.Some? && ExtractJobId(c.value) !in Ids(prev) && ExtractJobId(c.value) !in scraped {
        var links := prev + [c.value];
        assert SelectLinks(cands, scraped) == links;
        forall i, j | 0 <= i < j < |links|
          ensures ExtractJobId(links[i]) != ExtractJobId(links[j])
        {
          if j == |prev| {
            assert ExtractJobId(links[i]) == Ids(prev)[i];
          }
        }
      }
    }
  }

  /** Every candidate whose id was not scraped before has its id among the kept links. */
  lemma {:induction false} SelectLinksComplete(cands: seq<Option<string>>, scraped: set<string>)
    ensures forall k :: 0 <= k < |cands| && cands[k].Some? && ExtractJobId(cands[k].value) !in scraped ==>
              ExtractJobId(cands[k].value) in Ids(SelectLinks(cands, scraped))
    decreases |cands|
  {
    if |cands| > 0 {
      var n := |cands| - 1;
      var prev := SelectLinks(cands[..n], scraped);
      var links := SelectLinks(cands, scraped);
      SelectLinksComplete(cands[..n], scraped);
      if links != prev {
        assert Ids(links) == Ids(prev) + [ExtractJobId(cands[n].value)];
      }
      forall k | 0 <= k < |cands| && cands[k].Some? && ExtractJobId(cands[k].value) !in scraped
        ensures ExtractJobId(cands[k].value) in Ids(links)
      {
        if k < n {
          assert cands[k] == cands[..n][k];
        }
      }
    }
  }

  /** Each kept link is the first candidate carrying its id. */
  lemma {:induction false} SelectLinksFirstWins(cands: seq<Option<string>>, scraped: set<string>)
    ensures forall i :: 0 <= i < |SelectLinks(cands, scraped)| ==> FromFirstWithId(cands, SelectLinks(cands, scraped)[i])
    decreases |cands|
  {
    if |cands| > 0 {
      var n := |cands| - 1;
      var init := cands[..n];
      var prev := SelectLinks(init, scraped);
      var links := SelectLinks(cands, scraped);
      SelectLinksFirstWins(init, scraped);
      SelectLinksComplete(init, scraped);
      SelectLinksDistinct(init, scraped);
      assert links[..|prev|] == prev;
      forall i | 0 <= i < |links|
        ensures FromFirstWithId(cands, links[i])
      {
        if i < |prev| {
          assert links[i] == prev[i];
          assert FromFirstWithId(init, prev[i]);
          var k :| 0 <= k < |init| && FirstWithId(init, k) && init[k] == Some(prev[i]);
          assert forall m :: 0 <= m <= k ==> cands[m] == init[m];
          assert FirstWithId(cands, k);
        } else {
          var c := cands[n].value;
          assert links == prev + [c];
          assert forall m :: 0 <= m < n ==> cands[m] == init[m];
          forall m | 0 <= m < n && cands[m].Some?
            ensures ExtractJobId(cands[m].value) != ExtractJobId(c)
          {
            assert init[m].Some?;
          }
          assert FirstWithId(cands, n);
        }
      }
    }
  }

  /**
   * The filter of Jobvision_scraper.py: kept links carry no query, contain
   * "/jobs/", are not the search page, come from the anchors, have pairwise
   * different ids, none of them already scraped; each is the first anchor
   * with its id; and every anchor that passes the filter with an unscraped
   * id is represented.
   */
  lemma JobLinksSpec(hrefs: seq<Option<string>>, scraped: set<string>)
    ensures forall l :: l in SelectLinks(Candidates(hrefs), scraped) ==>
              '?' !in l && Contains(l, JOBS) && !EndsWith(l, KEYWORD_PAGE)
    ensures forall i, j :: 0 <= i < j < |SelectLinks(Candidates(hrefs), scraped)| ==>
              ExtractJobId(SelectLinks(Candidates(hrefs), scraped)[i]) != ExtractJobId(SelectLinks(Candidates(hrefs), scraped)[j])
    ensures forall l :: l in SelectLinks(Candidates(hrefs), scraped) ==> ExtractJobId(l) !in scraped
    ensures forall l :: l in SelectLinks(Candidates(hrefs), scraped) ==> FromFirstWithId(Candidates(hrefs), l)
    ensures forall k :: 0 <= k < |hrefs| && Candidate(hrefs[k]).Some? && ExtractJobId(Candidate(hrefs[k]).value) !in scraped ==>
              ExtractJobId(Candidate(hrefs[k]).value) in Ids(SelectLinks(Candidates(hrefs), scraped))
  {
    var cands := Candidates(hrefs);
    SelectLinksDistinct(cands, scraped);
    SelectLinksComplete(cands, scraped);
    SelectLinksFirstWins(cands, scraped);
    forall l | l in SelectLinks(cands, scraped)
      ensures '?' !in l && Contains(l, JOBS) && !EndsWith(l, KEYWORD_PAGE)
    {
      var k :| 0 <= k < |cands| && cands[k] == Some(l);
      assert Candidate(hrefs[k]) == Some(l);
    }
  }

  /** No two saved records carry the same job id. */
  predicate DistinctIds(jobs: seq<JobRecord>) {
    forall i, j :: 0 <= i < j < |jobs| ==> ExtractJobId(jobs[i].link) != ExtractJobId(jobs[j].link)
  }

  /** Distinct ids imply distinct links, the invariant of the other scrapers. */
  lemma DistinctIdsDistinctLinks(jobs: seq<JobRecord>)
    requires DistinctIds(jobs)
    ensures DistinctLinks(jobs)
  {
    forall i, j | 0 <= i < j < |jobs|
      ensures jobs[i].link != jobs[j].link
    {
      assert ExtractJobId(jobs[i].link) != ExtractJobId(jobs[j].link);
    }
  }

  /** The ids of the saved records, the contents `scraped_links` must have. */
  function JobIds(jobs: seq<JobRecord>): set<string> {
    set i | 0 <= i < |jobs| :: ExtractJobId(jobs[i].link)
  }

  /** Saving a record whose id is new keeps the ids distinct and adds exactly that id. */
  lemma SaveNewId(jobs: seq<JobRecord>, job: JobRecord)
    requires DistinctIds(jobs) && ExtractJobId(job.link) !in JobIds(jobs)
    ensures DistinctIds(jobs + [job])
    ensures JobIds(jobs + [job]) == JobIds(jobs) + {ExtractJobId(job.link)}
  {
    var r := jobs + [job];
    forall i, j | 0 <= i < j < |r|
      ensures ExtractJobId(r[i].link) != ExtractJobId(r[j].link)
    {
      if j == |jobs| {
        assert ExtractJobId(r[i].link) in JobIds(jobs);
      }
    }
    forall id | id in JobIds(r)
      ensures id in JobIds(jobs) + {ExtractJobId(job.link)}
    {
      var i :| 0 <= i < |r| && id == ExtractJobId(r[i].link);
      if i < |jobs| {
        assert r[i] == jobs[i];
      }
    }
    forall id | id in JobIds(jobs)
      ensures id in JobIds(r)
    {
      var i :| 0 <= i < |jobs| && id == ExtractJobId(jobs[i].link);
      assert r[i] == jobs[i];
    }
    assert ExtractJobId(r[|jobs|].link) in JobIds(r);
  }

  /** Links with pairwise different ids, none of them among `scraped`: what the link filter yields. */
  predicate FreshDistinctIds(links: seq<string>, scraped: set<string>) {
    (forall i, j :: 0 <= i < j < |links| ==> ExtractJobId(links[i]) != ExtractJobId(links[j])) &&
    (forall i :: 0 <= i < |links| ==> ExtractJobId(links[i]) !in scraped)
  }

  /** A link the anchor filter lets through. */
  predicate CleanJobLink(l: string) {
    '?' !in l && Contains(l, JOBS) && !EndsWith(l, KEYWORD_PAGE)
  }

  lemma ExtendsJobIds(r: seq<JobRecord>, jobs: seq<JobRecord>)
    requires Extends(r, jobs)
    ensures JobIds(jobs) <= JobIds(r)
  {
    forall id | id in JobIds(jobs)
      ensures id in JobIds(r)
    {
      var i :| 0 <= i < |jobs| && id == ExtractJobId(jobs[i].link);
      assert r[i] == r[..|jobs|][i];
    }
  }

  /**
   * In the detail loop a record whose id is already scraped either repeats
   * the id of an earlier link or carries an id scraped before the loop.
   */
  lemma SkippedIdSeen(links: seq<string>, i: nat, start: seq<JobRecord>, jobs: seq<JobRecord>, scraped: set<string>)
    requires i < |links|
    requires Extends(jobs, start) && scraped == JobIds(start)
    requires forall k :: |start| <= k < |jobs| ==> jobs[k].link in links[..i]
    requires ExtractJobId(links[i]) in JobIds(jobs)
    ensures ExtractJobId(links[i]) in scraped || exists m :: 0 <= m < i && ExtractJobId(links[m]) == ExtractJobId(links[i])
  {
    var k :| 0 <= k < |jobs| && ExtractJobId(jobs[k].link) == ExtractJobId(links[i]);
    if k < |start| {
      assert jobs[k] == jobs[..|start|][k];
      assert ExtractJobId(start[k].link) in JobIds(start);
    } else {
      var m :| 0 <= m < i && links[..i][m] == jobs[k].link;
      assert links[m] == jobs[k].link;
    }
  }

  /** The records one keyword adds come from clean links, so the scrape keeps every new link clean and fresh. */
  lemma NewRecordsClean(start: seq<JobRecord>, before: seq<JobRecord>, after: seq<JobRecord>, links: seq<string>, n: nat)
    requires Extends(before, start) && Extends(after, before) && n <= |links|
    requires forall k :: |start| <= k < |before| ==>
               CleanJobLink(before[k].link) && ExtractJobId(before[k].link) !in JobIds(start)
    requires forall k :: |before| <= k < |after| ==>
               after[k].link in links[..n] && ExtractJobId(after[k].link) !in JobIds(before)
    requires forall l :: l in links ==> CleanJobLink(l)
    ensures forall k :: |start| <= k < |after| ==>
              CleanJobLink(after[k].link) && ExtractJobId(after[k].link) !in JobIds(start)
  {
    ExtendsJobIds(before, start);
    forall k | |start| <= k < |after|
      ensures CleanJobLink(after[k].link) && ExtractJobId(after[k].link) !in JobIds(start)
    {
      if k < |before| {
        assert after[k] == after[..|before|][k];
      } else {
        assert after[k].link in links;
      }
    }
  }

  // ---------------------------------------------------------------------
  // The browser as an oracle
  // ---------------------------------------------------------------------

  datatype ImageKind = Background | Piece

  /** A captcha `<img>` found by one of the selectors: its non-empty `src` and its rendered width. */
  datatype ImageElement = ImageElement(src: string, renderedWidth: nat)

  /** A decoded image; only its width in pixels (`shape[1]`) matters here. */
  datatype Picture = Picture(width: nat)

  /** The password step: typed, timed out waiting for the field (ignored), or any other failure. */
  datatype PasswordStep = Typed | TimedOut | Failed

  datatype Event =
    | LoginPageOpened(ok: bool)
    | CaptchaProbed(present: bool)
    | ImageLookedUp(kind: ImageKind, found: Option<ImageElement>)
    | ImageDownloaded(src: string, ok: bool)
    | TemplateMatched(maxLocX: nat)
    | SliderLookedUp(present: bool)
    | Held(ok: bool)
    | CursorMoved(dx: int, dy: int, ok: bool)
    | MouseMoveDispatched
    | Released(ok: bool)
    | Refreshed(ok: bool)
    | EmailReentered(ok: bool)
    | PasswordEntered(step: PasswordStep)
    | LoginClicked(ok: bool)
    | UrlRead(url: Option<string>)
    | LoginFieldsProbed
    | SearchOpened(keyword: string)
    | AnchorsRead(count: nat)
    | DetailsScraped(page: string, ok: bool)

  /** The URL was read and shows that the browser has left the account host. */
  predicate LoggedInRead(e: Event) {
    e.UrlRead? && e.url.Some? && LoggedInUrl(e.url.value)
  }

  /**
   * How often each kind of browser step has happened.  Every solver run
   * starts with exactly one lookup of the background image, so `solves`
   * counts `solve_arcaptcha` calls; `loggedInReads` counts URL reads that
   * showed a logged-in page; `solvedRuns` counts the solver runs that held
   * the slider and then found the captcha gone.
   */
  datatype Tally = Tally(
    pageLoads: nat,
    solves: nat,
    holds: nat,
    refreshes: nat,
    refreshFailures: nat,
    reentries: nat,
    reentryFailures: nat,
    passwords: nat,
    passwordFailures: nat,
    clicks: nat,
    loggedInReads: nat,
    solvedRuns: nat)

  /** Only the solver's counters moved: a captcha run touches nothing else. */
  predicate OnlySolverChanged(a: Tally, b: Tally) {
    b == a.(solves := b.solves, holds := b.holds, solvedRuns := b.solvedRuns)
  }

  /** The browser steps only ever grow: `b` starts with all of `a`. */
  ghost predicate TraceExtends(a: seq<Event>, b: seq<Event>) {
    |a| <= |b| && forall i :: 0 <= i < |a| ==> b[i] == a[i]
  }

  /**
   * What the gap locator read: the x of the best template match, the
   * piece's width, and the background's rendered and natural widths.
   */
  datatype GapReading = GapReading(matchX: nat, pieceWidth: nat, domWidth: nat, bgWidth: nat)

  /** Stands for the browser session: every method is one browser action whose outcome is not known. */
  class Driver {
    /** Every browser step so far, in order. */
    ghost var trace: seq<Event>
    /** The counts of the steps in `trace`. */
    ghost var tally: Tally
    /** The horizontal offset of every cursor move in `trace`, in order. */
    ghost var moves: seq<int>

    constructor()
      ensures trace == [] && tally == Tally(0, 0, 0, 0, 0, 0, 0, 0, 0, 0, 0, 0) && moves == []
    {
      trace := [];
      tally := Tally(0, 0, 0, 0, 0, 0, 0, 0, 0, 0, 0, 0);
      moves := [];
    }

    /** `driver.get(login_url)`, the wait for "Username", the email and the continue click or ENTER. */
    method OpenLoginPage() returns (ok: bool)
      modifies this
      ensures trace == old(trace) + [LoginPageOpened(ok)]
      ensures tally == old(tally).(pageLoads := old(tally).pageLoads + 1)
      ensures moves == old(moves)
    {
      ok := *;
      trace := trace + [LoginPageOpened(ok)];
      tally := tally.(pageLoads := tally.pageLoads + 1);
    }

    /** `check_captcha_exists`: some captcha selector finds an element.  It never raises. */
    method ProbeCaptcha() returns (present: bool)
      modifies this
      ensures trace == old(trace) + [CaptchaProbed(present)]
      ensures tally == old(tally) && moves == old(moves)
    {
      present := *;
      trace := trace + [CaptchaProbed(present)];
    }

    /** The selector loop for one captcha image: the first element with a non-empty `src`. */
    method FindImage(kind: ImageKind) returns (found: Option<ImageElement>)
      modifies this
      ensures found.Some? ==> found.value.src != []
      ensures trace == old(trace) + [ImageLookedUp(kind, found)]
      ensures tally == if kind == Background then old(tally).(solves := old(tally).solves + 1) else old(tally)
      ensures moves == old(moves)
    {
      found := *;
      if found.Some? && found.value.src == [] {
        found := None;
      }
      trace := trace + [ImageLookedUp(kind, found)];
      tally := if kind == Background then tally.(solves := tally.solves + 1) else tally;
    }

    /** `download_image`: `None` when the request or the decoding fails. */
    method Download(src: string) returns (img: Option<Picture>)
      modifies this
      ensures img.Some? ==> img.value.width > 0
      ensures trace == old(trace) + [ImageDownloaded(src, img.Some?)]
      ensures tally == old(tally) && moves == old(moves)
    {
      img := *;
      if img.Some? && img.value.width < 1 {
        img := None;
      }
      trace := trace + [ImageDownloaded(src, img.Some?)];
    }

    /** The blurred grey and edge template matches and `minMaxLoc`: the x of the best match. */
    method MatchTemplate(bg: Picture, piece: Picture) returns (maxLocX: nat)
      modifies this
      ensures trace == old(trace) + [TemplateMatched(maxLocX)]
      ensures tally == old(tally) && moves == old(moves)
    {
      maxLocX := *;
      trace := trace + [TemplateMatched(maxLocX)];
    }

    method FindSlider() returns (found: bool)
      modifies this
      ensures trace == old(trace) + [SliderLookedUp(found)]
      ensures tally == old(tally) && moves == old(moves)
    {
      found := *;
      trace := trace + [SliderLookedUp(found)];
    }

    /** `click_and_hold` on the slider, with its fallback; `false` when the fallback raises too. */
    method ClickAndHold() returns (ok: bool)
      modifies this
      ensures trace == old(trace) + [Held(ok)]
      ensures tally == if ok then old(tally).(holds := old(tally).holds + 1) else old(tally)
      ensures moves == old(moves)
    {
      ok := *;
      trace := trace + [Held(ok)];
      tally := if ok then tally.(holds := tally.holds + 1) else tally;
    }

    method MoveBy(dx: int, dy: int) returns (ok: bool)
      modifies this
      ensures trace == old(trace) + [CursorMoved(dx, dy, ok)]
      ensures tally == old(tally) && moves == old(moves) + [dx]
    {
      ok := *;
      trace := trace + [CursorMoved(dx, dy, ok)];
      moves := moves + [dx];
    }

    /** The scripted `mousemove` fallback; its own failure is ignored. */
    method DispatchMouseMove()
      modifies this
      ensures trace == old(trace) + [MouseMoveDispatched]
      ensures tally == old(tally) && moves == old(moves)
    {
      trace := trace + [MouseMoveDispatched];
    }

    method Release() returns (ok: bool)
      modifies this
      ensures trace == old(trace) + [Released(ok)]
      ensures tally == old(tally) && moves == old(moves)
    {
      ok := *;
      trace := trace + [Released(ok)];
    }

    /** `driver.refresh()`; `false` when it raises. */
    method Refresh() returns (ok: bool)
      modifies this
      ensures trace == old(trace) + [Refreshed(ok)]
      ensures tally == old(tally).(refreshes := old(tally).refreshes + 1, refreshFailures := old(tally).refreshFailures + if ok then 0 else 1)
      ensures moves == old(moves)
    {
      ok := *;
      trace := trace + [Refreshed(ok)];
      tally := tally.(refreshes := tally.refreshes + 1, refreshFailures := tally.refreshFailures + if ok then 0 else 1);
    }

    /** The wait for "Username", the email and the continue click after a refresh. */
    method ReenterEmail() returns (ok: bool)
      modifies this
      ensures trace == old(trace) + [EmailReentered(ok)]
      ensures tally == if ok then old(tally).(reentries := old(tally).reentries + 1) else old(tally).(reentryFailures := old(tally).reentryFailures + 1)
      ensures moves == old(moves)
    {
      ok := *;
      trace := trace + [EmailReentered(ok)];
      tally := if ok then tally.(reentries := tally.reentries + 1) else tally.(reentryFailures := tally.reentryFailures + 1);
    }

    /** The wait for "Password" and typing it. */
    method EnterPassword() returns (step: PasswordStep)
      modifies this
      ensures trace == old(trace) + [PasswordEntered(step)]
      ensures tally == old(tally).(passwords := old(tally).passwords + 1, passwordFailures := old(tally).passwordFailures + if step == Failed then 1 else 0)
      ensures moves == old(moves)
    {
      step := *;
      trace := trace + [PasswordEntered(step)];
      tally := tally.(passwords := tally.passwords + 1, passwordFailures := tally.passwordFailures + if step == Failed then 1 else 0);
    }

    /** `_try_click_login_button`: tries two selectors and never raises. */
    method ClickLogin() returns (clicked: bool)
      modifies this
      ensures trace == old(trace) + [LoginClicked(clicked)]
      ensures tally == old(tally).(clicks := old(tally).clicks + 1)
      ensures moves == old(moves)
    {
      clicked := *;
      trace := trace + [LoginClicked(clicked)];
      tally := tally.(clicks := tally.clicks + 1);
    }

    /** `driver.current_url`; `None` when reading it raises. */
    method CurrentUrl() returns (url: Option<string>)
      modifies this
      ensures trace == old(trace) + [UrlRead(url)]
      ensures tally == old(tally).(loggedInReads := old(tally).loggedInReads + if LoggedInRead(UrlRead(url)) then 1 else 0)
      ensures moves == old(moves)
    {
      url := *;
      trace := trace + [UrlRead(url)];
      tally := tally.(loggedInReads := tally.loggedInReads + if LoggedInRead(UrlRead(url)) then 1 else 0);
    }

    /** The lookup of the "Username" and "Password" fields; its answer is never used. */
    method ProbeLoginFields()
      modifies this
      ensures trace == old(trace) + [LoginFieldsProbed]
      ensures tally == old(tally) && moves == old(moves)
    {
      trace := trace + [LoginFieldsProbed];
    }

    /** Opening the keyword search page, scrolling it and waiting for job links. */
    method OpenSearch(keyword: string)
      modifies this
      ensures trace == old(trace) + [SearchOpened(keyword)]
      ensures tally == old(tally) && moves == old(moves)
    {
      trace := trace + [SearchOpened(keyword)];
    }

    /** The `href` of every `a[href*='/jobs/']`; `None` for a missing attribute or a stale element. */
    method FindJobAnchors() returns (hrefs: seq<Option<string>>)
      modifies this
      ensures trace == old(trace) + [AnchorsRead(|hrefs|)]
      ensures tally == old(tally) && moves == old(moves)
    {
      hrefs := *;
      trace := trace + [AnchorsRead(|hrefs|)];
    }

    /** `scrape_job_details`: the record of one job page, whose link is the page url, or `None`. */
    method ScrapeJobDetails(url: string) returns (job: Option<JobRecord>)
      modifies this
      ensures job.Some? ==> job.value.link == url
      ensures trace == old(trace) + [DetailsScraped(url, job.Some?)]
      ensures tally == old(tally) && moves == old(moves)
    {
      job := *;
      if job.Some? {
        job := Some(job.value.(link := url));
      }
      trace := trace + [DetailsScraped(url, job.Some?)];
    }
  }

  // ---------------------------------------------------------------------
  // The scraper object
  // ---------------------------------------------------------------------

  datatype CycleOutcome = LoggedIn | NotLoggedIn | Raised

  class JobVisionScraper {
    const driver: Driver
    const maxLoginAttempts: nat
    const captchaAttempts: nat
    const refreshCycles: nat
    var jobs: seq<JobRecord>
    var scrapedLinks: set<string>

    /** `scraped_links` holds exactly the ids of the saved jobs, and those ids are distinct. */
    ghost predicate Valid()
      reads this
    {
      DistinctIds(jobs) && scrapedLinks == JobIds(jobs)
    }

    constructor(driver: Driver, maxLoginAttempts: nat, captchaAttempts: nat, refreshCycles: nat)
      ensures Valid()
      ensures jobs == [] && scrapedLinks == {}
      ensures this.driver == driver && this.maxLoginAttempts == maxLoginAttempts
      ensures this.captchaAttempts == captchaAttempts && this.refreshCycles == refreshCycles
    {
      this.driver := driver;
      this.maxLoginAttempts := maxLoginAttempts;
      this.captchaAttempts := captchaAttempts;
      this.refreshCycles := refreshCycles;
      jobs := [];
      scrapedLinks := {};
    }

    /**
     * `is_logged_in`: true exactly when the URL could be read and has left
     * the account host; the field lookup that follows otherwise never
     * changes the answer.
     */
    method IsLoggedIn() returns (r: bool)
      modifies driver
      ensures TraceExtends(old(driver.trace), driver.trace)
      ensures |driver.trace| > |old(driver.trace)|
      ensures r <==> LoggedInRead(driver.trace[|old(driver.trace)|])
      ensures r ==> driver.trace == old(driver.trace) + [driver.trace[|driver.trace| - 1]]
      ensures driver.tally == old(driver.tally).(loggedInReads := old(driver.tally).loggedInReads + if r then 1 else 0)
    {
      var url := driver.CurrentUrl();
      if url.None? {
        return false;
      }
      if LoggedInUrl(url.value) {
        return true;
      }
      driver.ProbeLoginFields();
      r := false;
    }

    /**
     * One pass of the drag loop: the nominal step `remaining // k`, sent with
     * a jitter in `[-2, 3]` and a vertical wobble in `[-1, 1]`; when the move
     * raises, a scripted `mousemove` is dispatched instead.
     */
    method DragStep(remaining: nat, k: nat) returns (step: nat, offset: int)
      requires k > 0
      modifies driver
      ensures step == remaining / k
      ensures step - 2 <= offset <= step + 3
      ensures driver.moves == old(driver.moves) + [offset]
      ensures driver.tally == old(driver.tally)
      ensures TraceExtends(old(driver.trace), driver.trace)
    {
      step := remaining / k;
      var jitter := RandInt(-2, 3);
      var dy := RandInt(-1, 1);
      offset := step + jitter;
      var moved := driver.MoveBy(offset, dy);
      if !moved {
        driver.DispatchMouseMove();
      }
    }

    /**
     * The drag loop of `solve_arcaptcha`: step `i` is `remaining // (steps - i)`
     * and `remaining` shrinks by exactly that step; the jitter in
     * `[-2, 3]` only shifts the offset sent to the browser.
     */
    method DragSlider(moveX: nat, steps: nat) returns (nominal: seq<nat>, offsets: seq<int>)
      modifies driver
      ensures nominal == Partition(moveX, steps)
      ensures |nominal| == |offsets| == steps
      ensures forall i :: 0 <= i < steps ==> nominal[i] - 2 <= offsets[i] <= nominal[i] + 3
      ensures driver.moves == old(driver.moves) + offsets
      ensures driver.tally == old(driver.tally)
      ensures TraceExtends(old(driver.trace), driver.trace)
    {
      var remaining: nat := moveX;
      nominal, offsets := [], [];
      var i := 0;
      while i < steps
        invariant 0 <= i <= steps
        invariant |nominal| == |offsets| == i
        invariant nominal + Partition(remaining, steps - i) == Partition(moveX, steps)
        invariant forall j :: 0 <= j < i ==> nominal[j] - 2 <= offsets[j] <= nominal[j] + 3
        invariant driver.moves == old(driver.moves) + offsets
        invariant driver.tally == old(driver.tally)
        invariant TraceExtends(old(driver.trace), driver.trace)
      {
        var step, offset := DragStep(remaining, steps - i);
        PartitionStep(remaining, steps - i);
        assert (nominal + [step]) + Partition(remaining - step, steps - i - 1) == nominal + Partition(remaining, steps - i);
        remaining := remaining - step;
        nominal := nominal + [step];
        offsets := offsets + [offset];
        i := i + 1;
      }
      assert nominal + [] == nominal;
    }

    /** The image lookups and downloads that open every `solve_arcaptcha` run. */
    method FetchImages() returns (images: Option<(ImageElement, Picture, Picture)>)
      modifies driver
      ensures images.Some? ==> images.value.1.width > 0
      ensures driver.tally == old(driver.tally).(solves := old(driver.tally).solves + 1)
      ensures driver.moves == old(driver.moves)
      ensures TraceExtends(old(driver.trace), driver.trace)
    {
      var bgElem := driver.FindImage(Background);
      var pieceElem := driver.FindImage(Piece);
      if bgElem.None? || pieceElem.None? {
        return None;
      }
      var bg := driver.Download(bgElem.value.src);
      var piece := driver.Download(pieceElem.value.src);
      if bg.None? || piece.None? {
        return None;
      }
      images := Some((bgElem.value, bg.value, piece.value));
    }

    /**
     * `solve_arcaptcha` as written: the gap locator is called with two
     * arguments although it takes three, so once both images are in hand the
     * call raises a `TypeError`, the handler swallows it and the run fails.
     * The slider is never touched.
     */
    method SolveArcaptchaAsWritten() returns (ok: bool)
      modifies driver
      ensures !ok
      ensures driver.tally == old(driver.tally).(solves := old(driver.tally).solves + 1)
      ensures driver.moves == old(driver.moves)
      ensures TraceExtends(old(driver.trace), driver.trace)
    {
      var images := FetchImages();
      if images.None? {
        return false;
      }
      ok := false;
    }

    /**
     * The images, the template match and `find_gap_position` with the
     * background element passed: the notch centre of the best match,
     * rescaled from the image's width to its rendered width.  `reading`
     * holds the match x and the three widths it was computed from.
     */
    method LocateGap() returns (gap: Option<nat>, ghost reading: GapReading)
      modifies driver
      ensures driver.tally == old(driver.tally).(solves := old(driver.tally).solves + 1)
      ensures driver.moves == old(driver.moves)
      ensures TraceExtends(old(driver.trace), driver.trace)
      ensures gap.Some? ==> reading.bgWidth > 0 &&
                            gap.value == GapToDom(reading.matchX, reading.pieceWidth, reading.domWidth, reading.bgWidth)
      ensures gap.Some? ==> |driver.trace| > |old(driver.trace)| &&
                            driver.trace[|driver.trace| - 1] == TemplateMatched(reading.matchX)
    {
      reading := GapReading(0, 0, 0, 0);
      var images := FetchImages();
      if images.None? {
        return None, reading;
      }
      var (bgElem, bg, piece) := images.value;
      var maxLocX := driver.MatchTemplate(bg, piece);
      reading := GapReading(maxLocX, piece.width, bgElem.renderedWidth, bg.width);
      gap := Some(GapToDom(maxLocX, piece.width, bgElem.renderedWidth, bg.width));
    }

    /**
     * With the slider held: the drag to ten pixels short of the gap, the
     * final nudge of 3 to 8 pixels, the release (tried twice) and the check
     * whether the captcha is still there.
     */
    method DragAndRelease(targetX: nat) returns (nominal: seq<nat>, sent: seq<int>, present: bool)
      modifies driver
      ensures nominal == NominalSteps(targetX)
      ensures driver.tally == old(driver.tally)
      ensures driver.moves == old(driver.moves) + sent
      ensures |sent| == |nominal| + 1
      ensures forall i :: 0 <= i < |nominal| ==> nominal[i] - 2 <= sent[i] <= nominal[i] + 3
      ensures 3 <= sent[|nominal|] <= 8
      ensures driver.trace != [] && driver.trace[|driver.trace| - 1] == CaptchaProbed(present)
      ensures TraceExtends(old(driver.trace), driver.trace)
    {
      ghost var start := driver.moves;
      var moveX := MoveDistance(targetX);
      var offsets;
      nominal, offsets := DragSlider(moveX, StepCount(moveX));
      var extra := RandInt(0, 5);
      var _ := driver.MoveBy(3 + extra, 0);
      sent := offsets + [3 + extra];
      assert driver.moves == start + sent by {
        assert (start + offsets) + [3 + extra] == start + (offsets + [3 + extra]);
      }
      assert forall i :: 0 <= i < |offsets| ==> sent[i] == offsets[i];
      var released := driver.Release();
      if !released {
        released := driver.Release();
      }
      present := driver.ProbeCaptcha();
    }

    /**
     * `solve_arcaptcha` with the background element passed to the gap
     * locator: locate the gap, hold the slider, drag and release, and report
     * success exactly when the captcha is gone afterwards; a success is
     * counted in `solvedRuns`.  The drag target is the located gap, computed
     * from the template match this run made.
     */
    method SolveArcaptcha() returns (ok: bool, ghost gap: nat, ghost reading: GapReading, ghost nominal: seq<nat>, ghost sent: seq<int>)
      modifies driver
      ensures TraceExtends(old(driver.trace), driver.trace)
      ensures OnlySolverChanged(old(driver.tally), driver.tally)
      ensures driver.tally.solves == old(driver.tally).solves + 1
      ensures driver.tally.holds <= old(driver.tally).holds + 1
      ensures ok <==> driver.tally.holds > old(driver.tally).holds && driver.trace != [] &&
                      driver.trace[|driver.trace| - 1] == CaptchaProbed(false)
      ensures driver.tally.solvedRuns == old(driver.tally).solvedRuns + if ok then 1 else 0
      ensures driver.tally.holds == old(driver.tally).holds ==> driver.moves == old(driver.moves)
      ensures driver.tally.holds > old(driver.tally).holds ==>
                reading.bgWidth > 0 &&
                gap == GapToDom(reading.matchX, reading.pieceWidth, reading.domWidth, reading.bgWidth) &&
                TemplateMatched(reading.matchX) in driver.trace[|old(driver.trace)|..]
      ensures driver.tally.holds > old(driver.tally).holds ==>
                nominal == NominalSteps(gap) && driver.moves == old(driver.moves) + sent &&
                |sent| == |nominal| + 1 && 3 <= sent[|nominal|] <= 8 &&
                forall i :: 0 <= i < |nominal| ==> nominal[i] - 2 <= sent[i] <= nominal[i] + 3
    {
      gap, nominal, sent := 0, [], [];
      var target;
      target, reading := LocateGap();
      if target.None? {
        return false, gap, reading, nominal, sent;
      }
      ghost var located := driver.trace;
      var slider := driver.FindSlider();
      if !slider {
        return false, gap, reading, nominal, sent;
      }
      var held := driver.ClickAndHold();
      if !held {
        return false, gap, reading, nominal, sent;
      }
      gap := target.value;
      var steps, offsets, present := DragAndRelease(target.value);
      nominal, sent := steps, offsets;
      ok := !present;
      assert TraceExtends(located, driver.trace);
      assert driver.trace[|old(driver.trace)|..][|located| - 1 - |old(driver.trace)|] == TemplateMatched(reading.matchX);
      if ok {
        driver.tally := driver.tally.(solvedRuns := driver.tally.solvedRuns + 1);
      }
    }

    /**
     * `try_solve_captcha_with_retries`: up to `captchaAttempts` solver runs,
     * stopping at the first success.  `results` lists each run's answer;
     * `solvedRuns` rises by one exactly when the last run succeeded, so no
     * earlier run did.
     */
    method TrySolveCaptchaWithRetries() returns (ok: bool, ghost results: seq<bool>)
      modifies driver
      ensures TraceExtends(old(driver.trace), driver.trace)
      ensures driver.tally.solvedRuns == old(driver.tally).solvedRuns + if ok then 1 else 0
      ensures OnlySolverChanged(old(driver.tally), driver.tally)
      ensures driver.tally.solves == old(driver.tally).solves + |results|
      ensures |results| <= captchaAttempts
      ensures forall i :: 0 <= i < |results| - 1 ==> !results[i]
      ensures ok <==> results != [] && results[|results| - 1]
      ensures !ok ==> |results| == captchaAttempts
      ensures ok ==> driver.trace != [] && driver.trace[|driver.trace| - 1] == CaptchaProbed(false)
    {
      results := [];
      var i := 0;
      while i < captchaAttempts
        invariant i <= captchaAttempts && |results| == i
        invariant forall j :: 0 <= j < i ==> !results[j]
        invariant OnlySolverChanged(old(driver.tally), driver.tally)
        invariant driver.tally.solves == old(driver.tally).solves + i
        invariant driver.tally.solvedRuns == old(driver.tally).solvedRuns
        invariant TraceExtends(old(driver.trace), driver.trace)
      {
        var solved;
        ghost var gap, reading, nominal, sent;
        solved, gap, reading, nominal, sent := SolveArcaptcha();
        results := results + [solved];
        i := i + 1;
        if solved {
          return true, results;
        }
      }
      ok := false;
    }

    /**
     * The captcha half of a refresh cycle: probe for the captcha and, when
     * it is there, run the solver with retries; if that fails, refresh the
     * page (a failure propagates) and type the email again (a failure ends
     * the cycle).  `proceed` says whether the cycle goes on to the password.
     */
    method ClearCaptcha() returns (proceed: bool, raised: bool, ghost seen: bool, ghost solved: bool)
      modifies driver
      ensures driver.tally == old(driver.tally).(solves := driver.tally.solves, holds := driver.tally.holds,
                refreshes := driver.tally.refreshes, refreshFailures := driver.tally.refreshFailures,
                reentries := driver.tally.reentries, reentryFailures := driver.tally.reentryFailures,
                solvedRuns := driver.tally.solvedRuns)
      ensures TraceExtends(old(driver.trace), driver.trace)
      ensures |driver.trace| > |old(driver.trace)| && driver.trace[|old(driver.trace)|] == CaptchaProbed(seen)
      ensures driver.tally.solvedRuns == old(driver.tally).solvedRuns + if solved then 1 else 0
      ensures solved ==> seen
      ensures seen && !solved ==> driver.tally.solves == old(driver.tally).solves + captchaAttempts
      ensures driver.tally.solves <= old(driver.tally).solves + captchaAttempts
      ensures !seen ==> driver.tally.solves == old(driver.tally).solves && !solved
      ensures driver.tally.refreshes == old(driver.tally).refreshes + if seen && !solved then 1 else 0
      ensures raised <==> driver.tally.refreshFailures > old(driver.tally).refreshFailures
      ensures raised ==> !proceed
      ensures proceed <==> !seen || solved || driver.tally.reentries > old(driver.tally).reentries
      ensures driver.tally.reentryFailures > old(driver.tally).reentryFailures ==> !proceed && !raised
    {
      solved, proceed, raised := false, true, false;
      var present := driver.ProbeCaptcha();
      seen := present;
      if present {
        var ok;
        ghost var results;
        ok, results := TrySolveCaptchaWithRetries();
        solved := ok;
        if !ok {
          var refreshed := driver.Refresh();
          if !refreshed {
            return false, true, seen, solved;
          }
          proceed := driver.ReenterEmail();
        }
      }
    }

    /**
     * One refresh cycle of `login_to_jobvision`.  With a captcha on the
     * page the solver runs; if it fails the page is refreshed and the email
     * typed again, and when that fails the cycle ends before the password.
     * Otherwise the password is entered, the login button clicked and the
     * URL checked.  A failed refresh or a failure while typing the password
     * other than the wait timing out propagates (`Raised`).
     */
    method RefreshCycle() returns (outcome: CycleOutcome, ghost seen: bool, ghost solved: bool, ghost reachedPassword: bool)
      modifies driver
      ensures driver.tally.pageLoads == old(driver.tally).pageLoads
      ensures TraceExtends(old(driver.trace), driver.trace)
      ensures |driver.trace| > |old(driver.trace)| && driver.trace[|old(driver.trace)|] == CaptchaProbed(seen)
      ensures driver.tally.solvedRuns == old(driver.tally).solvedRuns + if solved then 1 else 0
      ensures solved ==> seen
      ensures seen && !solved ==> driver.tally.solves == old(driver.tally).solves + captchaAttempts
      ensures driver.tally.solves <= old(driver.tally).solves + captchaAttempts
      ensures !seen ==> driver.tally.solves == old(driver.tally).solves && !solved
      ensures driver.tally.refreshes == old(driver.tally).refreshes + if seen && !solved then 1 else 0
      ensures reachedPassword <==> !seen || solved || driver.tally.reentries > old(driver.tally).reentries
      ensures driver.tally.reentryFailures > old(driver.tally).reentryFailures ==> !reachedPassword && outcome == NotLoggedIn
      ensures driver.tally.passwords == old(driver.tally).passwords + if reachedPassword then 1 else 0
      ensures driver.tally.clicks == old(driver.tally).clicks +
                if reachedPassword && driver.tally.passwordFailures == old(driver.tally).passwordFailures then 1 else 0
      ensures outcome == Raised <==>
                driver.tally.refreshFailures > old(driver.tally).refreshFailures ||
                driver.tally.passwordFailures > old(driver.tally).passwordFailures
      ensures driver.tally.loggedInReads == old(driver.tally).loggedInReads + if outcome == LoggedIn then 1 else 0
      ensures outcome == LoggedIn ==> driver.trace != [] && LoggedInRead(driver.trace[|driver.trace| - 1])
    {
      var proceed, raised;
      proceed, raised, seen, solved := ClearCaptcha();
      reachedPassword := proceed;
      if raised {
        return Raised, seen, solved, reachedPassword;
      }
      if !proceed {
        return NotLoggedIn, seen, solved, reachedPassword;
      }
      var step := driver.EnterPassword();
      if step == Failed {
        return Raised, seen, solved, reachedPassword;
      }
      var _ := driver.ClickLogin();
      var loggedIn := IsLoggedIn();
      outcome := if loggedIn then LoggedIn else NotLoggedIn;
    }

    /**
     * One attempt of `login_to_jobvision`: open the login page, then up to
     * `refreshCycles` cycles; an exception anywhere ends this attempt only.
     */
    method LoginAttempt() returns (success: bool)
      modifies driver
      ensures driver.tally.pageLoads == old(driver.tally).pageLoads + 1
      ensures driver.tally.solves <= old(driver.tally).solves + refreshCycles * captchaAttempts
      ensures driver.tally.loggedInReads == old(driver.tally).loggedInReads + (if success then 1 else 0)
      ensures success ==> driver.trace != [] && LoggedInRead(driver.trace[|driver.trace| - 1])
    {
      var pageOk := driver.OpenLoginPage();
      if !pageOk {
        return false;
      }
      var cycle := 0;
      while cycle < refreshCycles
        invariant cycle <= refreshCycles
        invariant driver.tally.pageLoads == old(driver.tally).pageLoads + 1
        invariant driver.tally.solves <= old(driver.tally).solves + cycle * captchaAttempts
        invariant driver.tally.loggedInReads == old(driver.tally).loggedInReads
      {
        var outcome;
        ghost var seen, solved, reachedPassword;
        outcome, seen, solved, reachedPassword := RefreshCycle();
        if outcome == LoggedIn {
          MulMonotone(cycle, refreshCycles, captchaAttempts);
          return true;
        }
        if outcome == Raised {
          MulMonotone(cycle, refreshCycles, captchaAttempts);
          return false;
        }
        assert (cycle + 1) * captchaAttempts == cycle * captchaAttempts + captchaAttempts;
        cycle := cycle + 1;
      }
      success := false;
    }

    /**
     * `login_to_jobvision`: up to `maxLoginAttempts` attempts.  It succeeds
     * right after a URL read that shows a logged-in page; otherwise every
     * attempt runs and it fails (the source raises "Login failed").  Over
     * the whole call the solver runs at most
     * `maxLoginAttempts * refreshCycles * captchaAttempts` times.
     */
    method LoginToJobvision() returns (loggedIn: bool)
      modifies driver
      ensures loggedIn ==> old(driver.tally).pageLoads < driver.tally.pageLoads <= old(driver.tally).pageLoads + maxLoginAttempts
      ensures !loggedIn ==> driver.tally.pageLoads == old(driver.tally).pageLoads + maxLoginAttempts
      ensures driver.tally.solves <= old(driver.tally).solves + maxLoginAttempts * refreshCycles * captchaAttempts
      ensures driver.tally.loggedInReads == old(driver.tally).loggedInReads + (if loggedIn then 1 else 0)
      ensures loggedIn ==> driver.trace != [] && LoggedInRead(driver.trace[|driver.trace| - 1])
    {
      var attempt := 0;
      while attempt < maxLoginAttempts
        invariant attempt <= maxLoginAttempts
        invariant driver.tally.pageLoads == old(driver.tally).pageLoads + attempt
        invariant driver.tally.solves <= old(driver.tally).solves + attempt * (refreshCycles * captchaAttempts)
        invariant driver.tally.loggedInReads == old(driver.tally).loggedInReads
      {
        var success := LoginAttempt();
        assert (attempt + 1) * (refreshCycles * captchaAttempts) == attempt * (refreshCycles * captchaAttempts) + refreshCycles * captchaAttempts;
        attempt := attempt + 1;
        if success {
          MulMonotone(attempt, maxLoginAttempts, refreshCycles * captchaAttempts);
          assert maxLoginAttempts * (refreshCycles * captchaAttempts) == maxLoginAttempts * refreshCycles * captchaAttempts;
          return true;
        }
      }
      assert maxLoginAttempts * (refreshCycles * captchaAttempts) == maxLoginAttempts * refreshCycles * captchaAttempts;
      loggedIn := false;
    }

    /** The anchor loop of `scrape_jobvision`: it builds `unique_links` with a set of ids seen so far. */
    method SelectJobLinks(hrefs: seq<Option<string>>) returns (links: seq<string>)
      ensures links == SelectLinks(Candidates(hrefs), scrapedLinks)
    {
      var cands := Candidates(hrefs);
      links := [];
      var seenIds: set<string> := {};
      var i := 0;
      while i < |hrefs|
        invariant 0 <= i <= |hrefs|
        invariant links == SelectLinks(cands[..i], scrapedLinks)
        invariant forall id :: id in seenIds <==> id in Ids(links)
      {
        var c := Candidate(hrefs[i]);
        if c.Some? {
          var id := ExtractJobId(c.value);
          if id !in seenIds && id !in scrapedLinks {
            seenIds := seenIds + {id};
            assert Ids(links + [c.value]) == Ids(links) + [id];
            links := links + [c.value];
          }
        }
        assert cands[..i + 1][..i] == cands[..i];
        i := i + 1;
      }
      assert cands[..|hrefs|] == cands;
    }

    /**
     * The detail loop of `scrape_jobvision` over the first `maxJobs` links:
     * every page that yields a record whose id is not yet scraped is saved
     * and its id recorded; a record with a known id counts as skipped, a
     * page that yields nothing as an error.  When the links carry distinct
     * ids that were not scraped before, nothing is skipped.
     */
    method ProcessJobLinks(links: seq<string>, maxJobs: nat) returns (processed: nat, skipped: nat, errors: nat)
      requires Valid()
      modifies this, driver
      ensures Valid()
      ensures processed + skipped + errors == Min(|links|, maxJobs)
      ensures |jobs| == |old(jobs)| + processed && Extends(jobs, old(jobs))
      ensures forall k :: |old(jobs)| <= k < |jobs| ==>
                jobs[k].link in links[..Min(|links|, maxJobs)] && ExtractJobId(jobs[k].link) !in old(scrapedLinks)
      ensures FreshDistinctIds(links, old(scrapedLinks)) ==> skipped == 0
      ensures driver.tally == old(driver.tally) && driver.moves == old(driver.moves)
    {
      var n := Min(|links|, maxJobs);
      processed, skipped, errors := 0, 0, 0;
      var i := 0;
      while i < n
        invariant 0 <= i <= n
        invariant Valid()
        invariant processed + skipped + errors == i
        invariant |jobs| == |old(jobs)| + processed && Extends(jobs, old(jobs))
        invariant forall k :: |old(jobs)| <= k < |jobs| ==>
                    jobs[k].link in links[..i] && ExtractJobId(jobs[k].link) !in old(scrapedLinks)
        invariant FreshDistinctIds(links, old(scrapedLinks)) ==> skipped == 0
        invariant driver.tally == old(driver.tally) && driver.moves == old(driver.moves)
      {
        var job := driver.ScrapeJobDetails(links[i]);
        if job.Some? {
          var id := ExtractJobId(links[i]);
          if id !in scrapedLinks {
            SaveNewId(jobs, job.value);
            jobs := jobs + [job.value];
            scrapedLinks := scrapedLinks + {id};
            processed := processed + 1;
          } else {
            SkippedIdSeen(links, i, old(jobs), jobs, old(scrapedLinks));
            skipped := skipped + 1;
          }
        } else {
          errors := errors + 1;
        }
        assert forall l :: l in links[..i] ==> l in links[..i + 1];
        i := i + 1;
      }
    }

    /**
     * `scrape_jobvision`: only with a logged-in page (otherwise it raises
     * before touching anything), then for each keyword the search page, its
     * anchors, the link filter and the detail loop.  Every saved record comes
     * from a filtered link with a fresh id, and each keyword adds at most
     * `maxPerKeyword` records.
     */
    method ScrapeJobvision(keywords: seq<string>, maxPerKeyword: nat) returns (started: bool)
      requires Valid()
      modifies this, driver
      ensures Valid()
      ensures driver.tally == old(driver.tally).(loggedInReads := old(driver.tally).loggedInReads + if started then 1 else 0)
      ensures !started ==> jobs == old(jobs) && scrapedLinks == old(scrapedLinks)
      ensures Extends(jobs, old(jobs))
      ensures |jobs| <= |old(jobs)| + |keywords| * maxPerKeyword
      ensures forall k :: |old(jobs)| <= k < |jobs| ==>
                CleanJobLink(jobs[k].link) &&
                ExtractJobId(jobs[k].link) !in old(scrapedLinks)
    {
      started := IsLoggedIn();
      if !started {
        return;
      }
      var w := 0;
      while w < |keywords|
        invariant 0 <= w <= |keywords|
        invariant Valid()
        invariant driver.tally == old(driver.tally).(loggedInReads := old(driver.tally).loggedInReads + 1)
        invariant Extends(jobs, old(jobs))
        invariant |jobs| <= |old(jobs)| + w * maxPerKeyword
        invariant forall k :: |old(jobs)| <= k < |jobs| ==>
                    CleanJobLink(jobs[k].link) &&
                    ExtractJobId(jobs[k].link) !in old(scrapedLinks)
      {
        driver.OpenSearch(keywords[w]);
        var hrefs := driver.FindJobAnchors();
        var links := SelectJobLinks(hrefs);
        JobLinksSpec(hrefs, scrapedLinks);
        ghost var before := jobs;
        var processed, skipped, errors := ProcessJobLinks(links, maxPerKeyword);
        NewRecordsClean(old(jobs), before, jobs, links, Min(|links|, maxPerKeyword));
        assert (w + 1) * maxPerKeyword == w * maxPerKeyword + maxPerKeyword;
        w := w + 1;
      }
      MulMonotone(|keywords|, |keywords|, maxPerKeyword);
    }
  }
}
