/**
 * The simpler JobVision scraper of gitignore/final_scraper.py: a login that
 * runs the captcha solver in a loop of at most five tries with one recovery
 * after every failed try, a solver that drags the slider in 15 to 25 equal
 * steps to the left edge of the best edge match, and a keyword scrape that
 * turns every job anchor with a title into a record.
 *
 * The browser is an oracle: each call may fail (the Python call raises) and
 * records what it did in ghost state, so that the contracts can say which
 * calls ran, in what order, and how far the cursor was moved.
 */
module FinalScraper {
  import opened Text
  import opened Listing
  import opened Motion
  import JobVisionCards

  // ---------------------------------------------------------------------
  // Gap position and drag steps
  // ---------------------------------------------------------------------

  /** `find_gap_position`: `max_loc[0]`, the left x of the best edge match, neither centred nor scaled. */
  function GapPosition(maxLocX: nat): nat {
    maxLocX
  }

  /**
   * Against the solver of Jobvision_scraper.py, which aims at the centre of
   * the piece in DOM pixels, this solver aims half a piece width further
   * left when the image is shown at its own width.
   */
  lemma GapPositionLeftOfCentre(maxLocX: nat, pieceWidth: nat, width: nat)
    requires width > 0
    ensures GapPosition(maxLocX) + pieceWidth / 2 == GapToDom(maxLocX, pieceWidth, width, width)
  {
    GapToDomNative(maxLocX, pieceWidth, width);
  }

  const MIN_STEPS := 15
  const MAX_STEPS := 25
  const MAX_CAPTCHA_ATTEMPTS := 5

  /** The drag of `solve_arcaptcha`: every step has size `move_distance / steps`, and together they cover the distance. */
  lemma DragCoversGap(gapX: nat, steps: nat)
    requires MIN_STEPS <= steps <= MAX_STEPS
    ensures |EqualSteps(gapX, steps)| == steps
    ensures forall i :: 0 <= i < steps ==> EqualSteps(gapX, steps)[i] * steps as real == gapX as real
    ensures RealSum(EqualSteps(gapX, steps)) == gapX as real
  {
    EqualStepsSum(gapX, steps);
  }

  // ---------------------------------------------------------------------
  // Records from the search page
  // ---------------------------------------------------------------------

  /** An `<a>` whose `href` contains "/jobs/", with `get_text(strip=True)` as its text. */
  datatype JobAnchor = JobAnchor(href: string, text: string)

  const JOBS_PATH := "/jobs/"
  const SOURCE := "JobVision"

  /** The record appended for an anchor: only title, link and date are known, every other field is "N/A". */
  function AnchorRecord(a: JobAnchor, dateAdded: string): (r: JobRecord)
    ensures r.title == a.text && r.dateAdded == dateAdded && r.source == SOURCE
    ensures r.link == JobVisionCards.JobVisionLink(a.href) && StartsWith(r.link, "http")
    ensures r.company == r.location == r.requirements == r.salary == r.contractType == r.workingHours == NOT_AVAILABLE
  {
    var na := NOT_AVAILABLE;
    JobRecord(dateAdded, a.text, na, na, na, na, na, na, JobVisionCards.JobVisionLink(a.href), SOURCE)
  }

  /** The anchor yields a record: its href mentions "/jobs/" and its text is non-empty. */
  predicate Kept(a: JobAnchor) {
    Contains(a.href, JOBS_PATH) && a.text != []
  }

  /**
   * The records one keyword page contributes, in anchor order; `stamps[k]`
   * is what the clock read when anchor `k` was reached.
   */
  function KeywordRecords(anchors: seq<JobAnchor>, stamps: seq<string>): seq<JobRecord>
    requires |stamps| == |anchors|
    decreases |anchors|
  {
    if |anchors| == 0 then []
    else
      var n := |anchors| - 1;
      var init := KeywordRecords(anchors[..n], stamps[..n]);
      if Kept(anchors[n]) then init + [AnchorRecord(anchors[n], stamps[n])] else init
  }

  /** How many anchors are kept. */
  function KeptCount(anchors: seq<JobAnchor>): nat
    decreases |anchors|
  {
    if |anchors| == 0 then 0
    else KeptCount(anchors[..|anchors| - 1]) + if Kept(anchors[|anchors| - 1]) then 1 else 0
  }

  /**
   * One record per kept anchor and nothing else: every record has a title,
   * an absolute link and comes from a "/jobs/" anchor.
   */
  lemma {:induction false} KeywordRecordsSpec(anchors: seq<JobAnchor>, stamps: seq<string>)
    requires |stamps| == |anchors|
    ensures |KeywordRecords(anchors, stamps)| == KeptCount(anchors)
    ensures forall r :: r in KeywordRecords(anchors, stamps) ==>
              r.title != [] && StartsWith(r.link, "http") &&
              exists k :: 0 <= k < |anchors| && Kept(anchors[k]) && r == AnchorRecord(anchors[k], stamps[k])
    decreases |anchors|
  {
    if |anchors| > 0 {
      var n := |anchors| - 1;
      KeywordRecordsSpec(anchors[..n], stamps[..n]);
      forall r | r in KeywordRecords(anchors[..n], stamps[..n])
        ensures exists k :: 0 <= k < |anchors| && Kept(anchors[k]) && r == AnchorRecord(anchors[k], stamps[k])
      {
        var k :| 0 <= k < n && Kept(anchors[..n][k]) && r == AnchorRecord(anchors[..n][k], stamps[..n][k]);
        assert anchors[..n][k] == anchors[k] && stamps[..n][k] == stamps[k];
      }
    }
  }

  /** Every kept anchor shows up as a record. */
  lemma {:induction false} KeywordRecordsComplete(anchors: seq<JobAnchor>, stamps: seq<string>)
    requires |stamps| == |anchors|
    ensures forall k :: 0 <= k < |anchors| && Kept(anchors[k]) ==>
              AnchorRecord(anchors[k], stamps[k]) in KeywordRecords(anchors, stamps)
    decreases |anchors|
  {
    if |anchors| > 0 {
      var n := |anchors| - 1;
      KeywordRecordsComplete(anchors[..n], stamps[..n]);
      forall k | 0 <= k < n
        ensures anchors[k] == anchors[..n][k] && stamps[k] == stamps[..n][k]
      {
      }
    }
  }

  /**
   * No de-duplication: the same anchor twice gives two records with the
   * same title and link, whatever the clock read each time.
   */
  lemma RepeatedAnchorKeptTwice(a: JobAnchor, first: string, second: string)
    requires Kept(a)
    ensures KeywordRecords([a, a], [first, second]) == [AnchorRecord(a, first), AnchorRecord(a, second)]
    ensures !DistinctLinks(KeywordRecords([a, a], [first, second]))
  {
    assert [a][..0] == [] && [first][..0] == [];
    assert KeywordRecords([a], [first]) == KeywordRecords([], []) + [AnchorRecord(a, first)];
    assert [a, a][..1] == [a] && [first, second][..1] == [first];
    assert KeywordRecords([a, a], [first, second]) == KeywordRecords([a], [first]) + [AnchorRecord(a, second)];
    var r := KeywordRecords([a, a], [first, second]);
    assert r[0].link == AnchorRecord(a, first).link == AnchorRecord(a, second).link == r[1].link;
  }

  // ---------------------------------------------------------------------
  // The browser as an oracle
  // ---------------------------------------------------------------------

  /** What the browser was last asked to do, for the contracts about order. */
  datatype Action =
    | LoginPageOpened(ok: bool)
    | EmailSubmitted(ok: bool)
    | CaptchaFrameEntered(ok: bool)
    | ImagesFetched(ok: bool)
    | EdgesMatched(maxLocX: nat)
    | SliderHeld(ok: bool)
    | Moved(dx: real, dy: real, ok: bool)
    | SliderReleased(ok: bool)
    | DefaultContent(ok: bool)
    | PasswordProbed(present: bool)
    | RefreshButtonLookedUp(present: bool)
    | RefreshButtonClicked(ok: bool)
    | Reloaded(ok: bool)
    | EmailFieldAwaited(present: bool)
    | ContinueClicked(ok: bool)
    | PasswordTyped(ok: bool)
    | LoginButtonFound(ok: bool)
    | LoginClicked(ok: bool)
    | UrlAwaited(ok: bool)
    | SearchLoaded(keyword: string)
    | AnchorsParsed(count: nat)

  class Browser {
    ghost var trace: seq<Action>
    /** Whether the captcha iframe is the current frame. */
    ghost var inFrame: bool
    /** Horizontal offsets of the cursor moves that were performed. */
    ghost var moves: seq<real>
    /** The x of the last edge match. */
    ghost var lastMatch: nat
    /** Waits for the captcha iframe: one at the start of every solver run. */
    ghost var frameWaits: nat
    /** Recoveries started: each begins with a look for the refresh button. */
    ghost var recoveries: nat
    /** Attempts to type the password. */
    ghost var passwordEntries: nat
    /** Waits for the "Password" field that found it: the captcha runs that succeeded. */
    ghost var solves: nat

    constructor()
      ensures trace == [] && !inFrame && moves == [] && lastMatch == 0
      ensures frameWaits == 0 && recoveries == 0 && passwordEntries == 0 && solves == 0
    {
      trace, inFrame, moves, lastMatch := [], false, [], 0;
      frameWaits, recoveries, passwordEntries, solves := 0, 0, 0, 0;
    }

    /** Open the login page and wait for the "Username" field. */
    method OpenLoginPage() returns (ok: bool)
      modifies this
      ensures trace == old(trace) + [LoginPageOpened(ok)]
      ensures inFrame == old(inFrame) && moves == old(moves) && lastMatch == old(lastMatch)
      ensures frameWaits == old(frameWaits) && recoveries == old(recoveries) && passwordEntries == old(passwordEntries) && solves == old(solves)
    {
      ok := *;
      trace := trace + [LoginPageOpened(ok)];
    }

    /** Type the account's email, press Escape and click "continue". */
    method SubmitEmail() returns (ok: bool)
      modifies this
      ensures trace == old(trace) + [EmailSubmitted(ok)]
      ensures inFrame == old(inFrame) && moves == old(moves) && lastMatch == old(lastMatch)
      ensures frameWaits == old(frameWaits) && recoveries == old(recoveries) && passwordEntries == old(passwordEntries) && solves == old(solves)
    {
      ok := *;
      trace := trace + [EmailSubmitted(ok)];
    }

    /** Wait for the captcha iframe, find it and switch into it. */
    method EnterCaptchaFrame() returns (ok: bool)
      modifies this
      ensures trace == old(trace) + [CaptchaFrameEntered(ok)]
      ensures frameWaits == old(frameWaits) + 1
      ensures inFrame == (ok || old(inFrame))
      ensures moves == old(moves) && lastMatch == old(lastMatch)
      ensures recoveries == old(recoveries) && passwordEntries == old(passwordEntries) && solves == old(solves)
    {
      ok := *;
      trace := trace + [CaptchaFrameEntered(ok)];
      frameWaits := frameWaits + 1;
      inFrame := ok || inFrame;
    }

    /** Find the background and piece images and download both. */
    method FetchImages() returns (ok: bool)
      modifies this
      ensures trace == old(trace) + [ImagesFetched(ok)]
      ensures inFrame == old(inFrame) && moves == old(moves) && lastMatch == old(lastMatch)
      ensures frameWaits == old(frameWaits) && recoveries == old(recoveries) && passwordEntries == old(passwordEntries) && solves == old(solves)
    {
      ok := *;
      trace := trace + [ImagesFetched(ok)];
    }

    /** Blur, Canny and `matchTemplate` on the edges; `max_loc[0]` of the best match. */
    method MatchEdges() returns (maxLocX: nat)
      modifies this
      ensures trace == old(trace) + [EdgesMatched(maxLocX)]
      ensures lastMatch == maxLocX
      ensures inFrame == old(inFrame) && moves == old(moves)
      ensures frameWaits == old(frameWaits) && recoveries == old(recoveries) && passwordEntries == old(passwordEntries) && solves == old(solves)
    {
      maxLocX := *;
      trace := trace + [EdgesMatched(maxLocX)];
      lastMatch := maxLocX;
    }

    /** Find ".slider-button" and press the mouse on it. */
    method HoldSlider() returns (ok: bool)
      modifies this
      ensures trace == old(trace) + [SliderHeld(ok)]
      ensures inFrame == old(inFrame) && moves == old(moves) && lastMatch == old(lastMatch)
      ensures frameWaits == old(frameWaits) && recoveries == old(recoveries) && passwordEntries == old(passwordEntries) && solves == old(solves)
    {
      ok := *;
      trace := trace + [SliderHeld(ok)];
    }

    /** `move_by_offset(dx, dy).perform()`; a performed move is recorded in `moves`. */
    method MoveBy(dx: real, dy: real) returns (ok: bool)
      modifies this
      ensures trace == old(trace) + [Moved(dx, dy, ok)]
      ensures moves == old(moves) + if ok then [dx] else []
      ensures inFrame == old(inFrame) && lastMatch == old(lastMatch)
      ensures frameWaits == old(frameWaits) && recoveries == old(recoveries) && passwordEntries == old(passwordEntries) && solves == old(solves)
    {
      ok := *;
      trace := trace + [Moved(dx, dy, ok)];
      if ok {
        moves := moves + [dx];
      }
    }

    method Release() returns (ok: bool)
      modifies this
      ensures trace == old(trace) + [SliderReleased(ok)]
      ensures inFrame == old(inFrame) && moves == old(moves) && lastMatch == old(lastMatch)
      ensures frameWaits == old(frameWaits) && recoveries == old(recoveries) && passwordEntries == old(passwordEntries) && solves == old(solves)
    {
      ok := *;
      trace := trace + [SliderReleased(ok)];
    }

    /** `switch_to.default_content()`: back to the page unless the switch fails. */
    method SwitchToDefault() returns (ok: bool)
      modifies this
      ensures trace == old(trace) + [DefaultContent(ok)]
      ensures inFrame == (!ok && old(inFrame))
      ensures moves == old(moves) && lastMatch == old(lastMatch)
      ensures frameWaits == old(frameWaits) && recoveries == old(recoveries) && passwordEntries == old(passwordEntries) && solves == old(solves)
    {
      ok := *;
      trace := trace + [DefaultContent(ok)];
      inFrame := !ok && inFrame;
    }

    /** Wait up to five seconds for the "Password" field. */
    method PasswordFieldAppears() returns (present: bool)
      modifies this
      ensures trace == old(trace) + [PasswordProbed(present)]
      ensures solves == old(solves) + if present then 1 else 0
      ensures inFrame == old(inFrame) && moves == old(moves) && lastMatch == old(lastMatch)
      ensures frameWaits == old(frameWaits) && recoveries == old(recoveries) && passwordEntries == old(passwordEntries)
    {
      present := *;
      trace := trace + [PasswordProbed(present)];
      if present {
        solves := solves + 1;
      }
    }

    /** Look for "#challenge button"; this starts a recovery. */
    method FindRefreshButton() returns (present: bool)
      modifies this
      ensures trace == old(trace) + [RefreshButtonLookedUp(present)]
      ensures recoveries == old(recoveries) + 1
      ensures inFrame == old(inFrame) && moves == old(moves) && lastMatch == old(lastMatch)
      ensures frameWaits == old(frameWaits) && passwordEntries == old(passwordEntries) && solves == old(solves)
    {
      present := *;
      trace := trace + [RefreshButtonLookedUp(present)];
      recoveries := recoveries + 1;
    }

    method ClickRefreshButton() returns (ok: bool)
      modifies this
      ensures trace == old(trace) + [RefreshButtonClicked(ok)]
      ensures inFrame == old(inFrame) && moves == old(moves) && lastMatch == old(lastMatch)
      ensures frameWaits == old(frameWaits) && recoveries == old(recoveries) && passwordEntries == old(passwordEntries) && solves == old(solves)
    {
      ok := *;
      trace := trace + [RefreshButtonClicked(ok)];
    }

    /** `driver.refresh()`, which also leaves any frame. */
    method Reload() returns (ok: bool)
      modifies this
      ensures trace == old(trace) + [Reloaded(ok)]
      ensures inFrame == (!ok && old(inFrame))
      ensures moves == old(moves) && lastMatch == old(lastMatch)
      ensures frameWaits == old(frameWaits) && recoveries == old(recoveries) && passwordEntries == old(passwordEntries) && solves == old(solves)
    {
      ok := *;
      trace := trace + [Reloaded(ok)];
      inFrame := !ok && inFrame;
    }

    /** Wait up to five seconds for the "Username" field after a reload. */
    method EmailFieldAppears() returns (present: bool)
      modifies this
      ensures trace == old(trace) + [EmailFieldAwaited(present)]
      ensures inFrame == old(inFrame) && moves == old(moves) && lastMatch == old(lastMatch)
      ensures frameWaits == old(frameWaits) && recoveries == old(recoveries) && passwordEntries == old(passwordEntries) && solves == old(solves)
    {
      present := *;
      trace := trace + [EmailFieldAwaited(present)];
    }

    /** Clear the field, type the email, press Escape, find "continue" and click it. */
    method RetypeEmail() returns (ok: bool)
      modifies this
      ensures trace == old(trace) + [ContinueClicked(ok)]
      ensures inFrame == old(inFrame) && moves == old(moves) && lastMatch == old(lastMatch)
      ensures frameWaits == old(frameWaits) && recoveries == old(recoveries) && passwordEntries == old(passwordEntries) && solves == old(solves)
    {
      ok := *;
      trace := trace + [ContinueClicked(ok)];
    }

    /** Wait for the "Password" field, clear it and type the account's password. */
    method TypePassword() returns (ok: bool)
      modifies this
      ensures trace == old(trace) + [PasswordTyped(ok)]
      ensures passwordEntries == old(passwordEntries) + 1 && solves == old(solves)
      ensures inFrame == old(inFrame) && moves == old(moves) && lastMatch == old(lastMatch)
      ensures frameWaits == old(frameWaits) && recoveries == old(recoveries)
    {
      ok := *;
      trace := trace + [PasswordTyped(ok)];
      passwordEntries := passwordEntries + 1;
    }

    /** "button.btn.btn-primary", else "a.btn.btn-primary"; neither clickable raises. */
    method FindLoginButton() returns (ok: bool)
      modifies this
      ensures trace == old(trace) + [LoginButtonFound(ok)]
      ensures inFrame == old(inFrame) && moves == old(moves) && lastMatch == old(lastMatch)
      ensures frameWaits == old(frameWaits) && recoveries == old(recoveries) && passwordEntries == old(passwordEntries) && solves == old(solves)
    {
      ok := *;
      trace := trace + [LoginButtonFound(ok)];
    }

    /** Scroll the button into view and click it with a script. */
    method ClickLogin() returns (ok: bool)
      modifies this
      ensures trace == old(trace) + [LoginClicked(ok)]
      ensures inFrame == old(inFrame) && moves == old(moves) && lastMatch == old(lastMatch)
      ensures frameWaits == old(frameWaits) && recoveries == old(recoveries) && passwordEntries == old(passwordEntries) && solves == old(solves)
    {
      ok := *;
      trace := trace + [LoginClicked(ok)];
    }

    /** Wait for a URL containing "jobvision.ir"; a timeout is only reported. */
    method AwaitJobVisionUrl() returns (ok: bool)
      modifies this
      ensures trace == old(trace) + [UrlAwaited(ok)]
      ensures inFrame == old(inFrame) && moves == old(moves) && lastMatch == old(lastMatch)
      ensures frameWaits == old(frameWaits) && recoveries == old(recoveries) && passwordEntries == old(passwordEntries) && solves == old(solves)
    {
      ok := *;
      trace := trace + [UrlAwaited(ok)];
    }

    /** Load the keyword's search page and scroll it three times. */
    method LoadSearch(keyword: string)
      modifies this
      ensures trace == old(trace) + [SearchLoaded(keyword)]
      ensures inFrame == old(inFrame) && moves == old(moves) && lastMatch == old(lastMatch)
      ensures frameWaits == old(frameWaits) && recoveries == old(recoveries) && passwordEntries == old(passwordEntries) && solves == old(solves)
    {
      trace := trace + [SearchLoaded(keyword)];
    }

    /** Parse the page source: every `<a>` whose href contains "/jobs/", with its stripped text. */
    method JobAnchors() returns (anchors: seq<JobAnchor>)
      modifies this
      ensures forall a :: a in anchors ==> Contains(a.href, JOBS_PATH)
      ensures trace == old(trace) + [AnchorsParsed(|anchors|)]
      ensures inFrame == old(inFrame) && moves == old(moves) && lastMatch == old(lastMatch)
      ensures frameWaits == old(frameWaits) && recoveries == old(recoveries) && passwordEntries == old(passwordEntries) && solves == old(solves)
    {
      anchors := *;
      if exists a :: a in anchors && !Contains(a.href, JOBS_PATH) {
        anchors := [];
      }
      trace := trace + [AnchorsParsed(|anchors|)];
    }
  }

  /**
   * The browser answers a recovery can see, and whether it raises: the
   * refresh button found and clicked; no button and a reload that fails;
   * a reload after which the email field never comes back (the timeout is
   * swallowed); or a reload, the email field, and the email typed again.
   * `None` for any other sequence of answers.
   */
  function RecoveryPath(steps: seq<Action>): Option<bool> {
    if |steps| == 2 && steps[0] == RefreshButtonLookedUp(true) && steps[1].RefreshButtonClicked? then
      Some(!steps[1].ok)
    else if steps == [RefreshButtonLookedUp(false), Reloaded(false)] then
      Some(true)
    else if steps == [RefreshButtonLookedUp(false), Reloaded(true), EmailFieldAwaited(false)] then
      Some(false)
    else if |steps| == 4 && steps[..3] == [RefreshButtonLookedUp(false), Reloaded(true), EmailFieldAwaited(true)] &&
            steps[3].ContinueClicked? then
      Some(!steps[3].ok)
    else
      None
  }

  /**
   * Only the two `NoSuchElementException`/`TimeoutException` cases are
   * handled: a recovery raises exactly when one of its browser calls failed,
   * and a missing refresh button or email field never raises by itself; the
   * page is reloaded exactly when the refresh button is missing.
   */
  lemma RecoveryRaisesOnFailure(steps: seq<Action>)
    requires RecoveryPath(steps).Some?
    ensures RecoveryPath(steps) == Some(true) <==>
              RefreshButtonClicked(false) in steps || Reloaded(false) in steps || ContinueClicked(false) in steps
    ensures steps[0] == RefreshButtonLookedUp(false) <==> Reloaded(true) in steps || Reloaded(false) in steps
  {
    if steps[0] == RefreshButtonLookedUp(true) {
      assert steps == [steps[0], steps[1]];
    } else {
      assert steps[1] in steps;
    }
  }

  /** `datetime.now().strftime(...)`: the clock is an oracle, read once per appended record. */
  method Now() returns (stamp: string) {
    stamp := *;
  }

  /** How `solve_arcaptcha_loop` ends: a solve, all tries used up, or a recovery that raised. */
  datatype LoopOutcome = Solved | Exhausted | RecoveryRaised

  // ---------------------------------------------------------------------
  // The scraper object
  // ---------------------------------------------------------------------

  class FinalJobScraper {
    const browser: Browser
    var jobs: seq<JobRecord>

    constructor(browser: Browser)
      ensures this.browser == browser && jobs == []
    {
      this.browser := browser;
      jobs := [];
    }

    /**
     * The drag loop: `steps` moves of `move_distance / steps` each, with a
     * vertical wobble in [-2, 2].  It stops at the first move that raises;
     * `sent` holds the moves performed, all of the nominal size.
     */
    method Drag(distance: nat, steps: nat) returns (done: bool, ghost sent: seq<real>)
      requires steps > 0
      modifies browser
      ensures browser.moves == old(browser.moves) + sent
      ensures |sent| <= steps
      ensures forall i :: 0 <= i < |sent| ==> sent[i] == EqualStep(distance, steps)
      ensures done ==> sent == EqualSteps(distance, steps)
      ensures browser.inFrame == old(browser.inFrame) && browser.lastMatch == old(browser.lastMatch)
      ensures browser.frameWaits == old(browser.frameWaits) && browser.recoveries == old(browser.recoveries)
      ensures browser.passwordEntries == old(browser.passwordEntries) && browser.solves == old(browser.solves)
    {
      sent := [];
      var i := 0;
      while i < steps
        invariant 0 <= i <= steps && |sent| == i
        invariant forall j :: 0 <= j < i ==> sent[j] == EqualStep(distance, steps)
        invariant browser.moves == old(browser.moves) + sent
        invariant browser.inFrame == old(browser.inFrame) && browser.lastMatch == old(browser.lastMatch)
        invariant browser.frameWaits == old(browser.frameWaits) && browser.recoveries == old(browser.recoveries)
        invariant browser.passwordEntries == old(browser.passwordEntries) && browser.solves == old(browser.solves)
      {
        var stepSize := distance as real / steps as real;
        var wobble := RandUniform(-2.0, 2.0);
        var ok := browser.MoveBy(stepSize, wobble);
        if !ok {
          return false, sent;
        }
        sent := sent + [stepSize];
        i := i + 1;
      }
      done := true;
    }

    /**
     * `solve_arcaptcha`: true only when the "Password" field appears after
     * the drag, and then the slider moved in 15 to 25 equal steps exactly to
     * the left x of the best edge match.  Every failure switches back to
     * the page, so the captcha frame stays current only when that last
     * switch itself failed.
     */
    method SolveArcaptcha() returns (ok: bool, ghost gapX: nat, ghost steps: nat, ghost sent: seq<real>)
      modifies browser
      ensures browser.frameWaits == old(browser.frameWaits) + 1
      ensures browser.recoveries == old(browser.recoveries) && browser.passwordEntries == old(browser.passwordEntries)
      ensures browser.moves == old(browser.moves) + sent && |sent| <= MAX_STEPS
      ensures ok <==> browser.trace != [] && browser.trace[|browser.trace| - 1] == PasswordProbed(true)
      ensures browser.solves == old(browser.solves) + if ok then 1 else 0
      ensures ok ==> MIN_STEPS <= steps <= MAX_STEPS && gapX == GapPosition(browser.lastMatch) &&
                     sent == EqualSteps(gapX, steps) && RealSum(sent) == browser.lastMatch as real
      ensures browser.inFrame ==> browser.trace != [] && browser.trace[|browser.trace| - 1] == DefaultContent(false)
    {
      gapX, steps, sent := 0, 0, [];
      var entered := browser.EnterCaptchaFrame();
      if !entered {
        ok := RecoverFrame();
        return;
      }
      var fetched := browser.FetchImages();
      if !fetched {
        ok := RecoverFrame();
        return;
      }
      var maxLocX := browser.MatchEdges();
      var gap := GapPosition(maxLocX);
      gapX := gap;
      var held := browser.HoldSlider();
      if !held {
        ok := RecoverFrame();
        return;
      }
      var n := RandInt(MIN_STEPS, MAX_STEPS);
      steps := n;
      var dragged;
      dragged, sent := Drag(gap, n);
      if !dragged {
        ok := RecoverFrame();
        return;
      }
      var released := browser.Release();
      if !released {
        ok := RecoverFrame();
        return;
      }
      var back := browser.SwitchToDefault();
      if !back {
        ok := RecoverFrame();
        return;
      }
      ok := browser.PasswordFieldAppears();
      if ok {
        DragCoversGap(gap, n);
      }
    }

    /** The `except` of `solve_arcaptcha`: try to return to the page and report failure. */
    method RecoverFrame() returns (ok: bool)
      modifies browser
      ensures !ok
      ensures browser.trace != [] && browser.trace[|browser.trace| - 1].DefaultContent?
      ensures browser.moves == old(browser.moves) && browser.lastMatch == old(browser.lastMatch)
      ensures browser.frameWaits == old(browser.frameWaits) && browser.recoveries == old(browser.recoveries)
      ensures browser.passwordEntries == old(browser.passwordEntries) && browser.solves == old(browser.solves)
      ensures browser.inFrame ==> browser.trace != [] && browser.trace[|browser.trace| - 1] == DefaultContent(false)
    {
      var _ := browser.SwitchToDefault();
      ok := false;
    }

    /**
     * The recovery after a failed try: click the captcha's refresh button
     * when there is one; otherwise reload the page and, if the email field
     * comes back within the wait, type the email again.  Only a missing
     * refresh button and a missing email field are handled; any other
     * failure propagates (`raised`).
     */
    method Recover() returns (raised: bool, ghost steps: seq<Action>)
      modifies browser
      ensures browser.recoveries == old(browser.recoveries) + 1
      ensures browser.frameWaits == old(browser.frameWaits) && browser.passwordEntries == old(browser.passwordEntries)
      ensures browser.solves == old(browser.solves)
      ensures browser.trace == old(browser.trace) + steps
      ensures RecoveryPath(steps) == Some(raised)
    {
      var hasButton := browser.FindRefreshButton();
      steps := [RefreshButtonLookedUp(hasButton)];
      if hasButton {
        var clicked := browser.ClickRefreshButton();
        return !clicked, steps + [RefreshButtonClicked(clicked)];
      }
      var reloaded := browser.Reload();
      steps := steps + [Reloaded(reloaded)];
      if !reloaded {
        return true, steps;
      }
      var emailBack := browser.EmailFieldAppears();
      steps := steps + [EmailFieldAwaited(emailBack)];
      if !emailBack {
        return false, steps;
      }
      var retyped := browser.RetypeEmail();
      raised, steps := !retyped, steps + [ContinueClicked(retyped)];
    }

    /**
     * `solve_arcaptcha_loop`: at most `maxAttempts` solver runs, stopping at
     * the first success; after every failed run exactly one recovery, the
     * last one included; a recovery that raises ends the loop.  The source
     * raises unless the loop ends `Solved`.  The browser's `solves` counter
     * rises by one exactly when the loop ends `Solved`: no run before the
     * last succeeded, and an exhausted or aborted loop saw no success.
     */
    method SolveArcaptchaLoop(maxAttempts: nat) returns (outcome: LoopOutcome, ghost tries: nat)
      modifies browser
      ensures tries <= maxAttempts
      ensures browser.frameWaits == old(browser.frameWaits) + tries
      ensures browser.passwordEntries == old(browser.passwordEntries)
      ensures browser.solves == old(browser.solves) + if outcome == Solved then 1 else 0
      ensures outcome == Solved ==> 1 <= tries && browser.recoveries == old(browser.recoveries) + tries - 1 &&
                                     browser.trace != [] && browser.trace[|browser.trace| - 1] == PasswordProbed(true)
      ensures outcome == Exhausted ==> tries == maxAttempts && browser.recoveries == old(browser.recoveries) + maxAttempts
      ensures outcome == RecoveryRaised ==> 1 <= tries && browser.recoveries == old(browser.recoveries) + tries
    {
      tries := 0;
      var attempt := 0;
      while attempt < maxAttempts
        invariant attempt <= maxAttempts && tries == attempt
        invariant browser.frameWaits == old(browser.frameWaits) + attempt
        invariant browser.recoveries == old(browser.recoveries) + attempt
        invariant browser.passwordEntries == old(browser.passwordEntries) && browser.solves == old(browser.solves)
      {
        var solved;
        ghost var gapX, steps, sent;
        solved, gapX, steps, sent := SolveArcaptcha();
        attempt := attempt + 1;
        tries := attempt;
        if solved {
          return Solved, tries;
        }
        var raised;
        ghost var answers;
        raised, answers := Recover();
        if raised {
          return RecoveryRaised, tries;
        }
      }
      outcome := Exhausted;
    }

    /**
     * `login_to_jobvision`: open the page, submit the email, run the solver
     * loop with five tries, and only after it returns type the password and
     * click the login button.  `completed` is false where the source raises:
     * it holds exactly when the loop ended `Solved` and the last four browser
     * actions are the password typed, the login button found, the click,
     * and the wait for the final URL, whose timeout is only reported.
     */
    method LoginToJobvision() returns (completed: bool, ghost loop: Option<LoopOutcome>)
      modifies browser
      ensures browser.frameWaits <= old(browser.frameWaits) + MAX_CAPTCHA_ATTEMPTS
      ensures browser.passwordEntries <= old(browser.passwordEntries) + 1
      ensures browser.passwordEntries > old(browser.passwordEntries) ==> loop == Some(Solved)
      ensures loop.Some? && loop.value != Solved ==> !completed && browser.passwordEntries == old(browser.passwordEntries)
      ensures completed ==> loop == Some(Solved) && browser.passwordEntries == old(browser.passwordEntries) + 1
      ensures completed <==> loop == Some(Solved) && |browser.trace| >= 4 &&
                             browser.trace[|browser.trace| - 4..|browser.trace| - 1] ==
                               [PasswordTyped(true), LoginButtonFound(true), LoginClicked(true)] &&
                             browser.trace[|browser.trace| - 1].UrlAwaited?
      ensures browser.solves == old(browser.solves) + if loop == Some(Solved) then 1 else 0
    {
      loop := None;
      var pageOk := browser.OpenLoginPage();
      if !pageOk {
        return false, loop;
      }
      var submitted := browser.SubmitEmail();
      if !submitted {
        return false, loop;
      }
      var outcome;
      ghost var tries;
      outcome, tries := SolveArcaptchaLoop(MAX_CAPTCHA_ATTEMPTS);
      loop := Some(outcome);
      if outcome != Solved {
        return false, loop;
      }
      var typed := browser.TypePassword();
      if !typed {
        return false, loop;
      }
      var found := browser.FindLoginButton();
      if !found {
        return false, loop;
      }
      var clicked := browser.ClickLogin();
      if !clicked {
        return false, loop;
      }
      var _ := browser.AwaitJobVisionUrl();
      completed := true;
    }

    /**
     * The anchor loop of one keyword: append a record for every anchor with
     * a non-empty title, stamped with the clock read at that anchor
     * (`stamps` holds "" for the anchors that are passed over).
     */
    method AddKeywordRecords(anchors: seq<JobAnchor>) returns (ghost stamps: seq<string>)
      modifies this
      ensures |stamps| == |anchors|
      ensures jobs == old(jobs) + KeywordRecords(anchors, stamps)
    {
      stamps := [];
      var i := 0;
      while i < |anchors|
        invariant 0 <= i <= |anchors| && |stamps| == i
        invariant jobs == old(jobs) + KeywordRecords(anchors[..i], stamps)
      {
        var a := anchors[i];
        assert anchors[..i + 1][..i] == anchors[..i];
        if !StartsWith(a.href, "http") {
          assert JobVisionCards.JobVisionLink(a.href) == JobVisionCards.JOBVISION_ORIGIN + a.href;
        }
        if Contains(a.href, JOBS_PATH) && a.text != [] {
          var now := Now();
          jobs := jobs + [AnchorRecord(a, now)];
          stamps := stamps + [now];
        } else {
          stamps := stamps + [""];
        }
        assert (stamps)[..i] == stamps[..|stamps| - 1];
        i := i + 1;
      }
      assert anchors[..|anchors|] == anchors;
    }

    /**
     * `scrape_jobvision`: for each keyword the search page, its "/jobs/"
     * anchors and one record per anchor with a title, each stamped when it
     * is appended.  Nothing is de-duplicated.
     */
    method ScrapeJobvision(keywords: seq<string>)
      returns (ghost pages: seq<seq<JobAnchor>>, ghost stamps: seq<seq<string>>, ghost added: seq<seq<JobRecord>>)
      modifies this, browser
      ensures |pages| == |stamps| == |added| == |keywords|
      ensures forall k :: 0 <= k < |keywords| ==>
                |stamps[k]| == |pages[k]| && added[k] == KeywordRecords(pages[k], stamps[k])
      ensures jobs == old(jobs) + Flatten(added)
    {
      pages, stamps, added := [], [], [];
      var w := 0;
      while w < |keywords|
        invariant 0 <= w <= |keywords| && |pages| == |stamps| == |added| == w
        invariant forall k :: 0 <= k < w ==>
                    |stamps[k]| == |pages[k]| && added[k] == KeywordRecords(pages[k], stamps[k])
        invariant jobs == old(jobs) + Flatten(added)
      {
        browser.LoadSearch(keywords[w]);
        var anchors := browser.JobAnchors();
        ghost var read := AddKeywordRecords(anchors);
        FlattenSnoc(added, KeywordRecords(anchors, read));
        pages, stamps := pages + [anchors], stamps + [read];
        added := added + [KeywordRecords(anchors, read)];
        w := w + 1;
      }
    }
  }

  function Flatten(xss: seq<seq<JobRecord>>): seq<JobRecord>
    decreases |xss|
  {
    if |xss| == 0 then [] else Flatten(xss[..|xss| - 1]) + xss[|xss| - 1]
  }

  lemma FlattenSnoc(xss: seq<seq<JobRecord>>, xs: seq<JobRecord>)
    ensures Flatten(xss + [xs]) == Flatten(xss) + xs
  {
    assert (xss + [xs])[..|xss|] == xss;
  }
}
