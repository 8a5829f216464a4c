/**
 * Parsing of a Jobinja listing card and of the job page behind it, as done
 * by the three Jobinja scrapers.  The HTML tree is given as the texts the
 * parser pulls out of it; loading the job page is an input that is `None`
 * when the browser failed to load it.
 */
module JobinjaCards {
  import opened Text
  import opened Listing

  // ---------------------------------------------------------------------
  // Title cleaning
  // ---------------------------------------------------------------------

  /** "day": every date suffix the title regex removes mentions it. */
  const DAY := "روز"

  /**
   * `s` opens with a bracketed group that the pattern
   * `\([^)]*روز[^)]*\)|\(امروز\)|\(دیروز\)` matches at its first character:
   * a "(" whose text up to the first ")" mentions a day.  The two literal
   * alternatives both contain "روز", so the first alternative covers them.
   */
  predicate OpensDayGroup(s: string) {
    |s| > 0 && s[0] == '(' && ')' in s[1..] && Contains(BeforeFirst(s[1..], ')'), DAY)
  }

  /** `re.sub(pattern, '', s)`: groups are matched left to right and never overlap. */
  function RemoveDayGroups(s: string): string
    decreases |s|
  {
    if |s| == 0 then []
    else if OpensDayGroup(s) then RemoveDayGroups(s[|BeforeFirst(s[1..], ')')| + 2..])
    else [s[0]] + RemoveDayGroups(s[1..])
  }

  /** The title as stored: date groups removed, then `strip()`. */
  function CleanTitle(title: string): string {
    Strip(RemoveDayGroups(title))
  }

  /** No position of `s` starts a group that the title regex would remove. */
  predicate NoDayGroup(s: string) {
    forall p :: 0 <= p < |s| ==> !OpensDayGroup(s[p..])
  }

  lemma {:induction false} BeforeFirstOf(a: string, c: char, b: string)
    requires c !in a
    ensures BeforeFirst(a + [c] + b, c) == a
    decreases |a|
  {
    var s := a + [c] + b;
    if |a| == 0 {
      assert s[0] == c;
    } else {
      assert s[0] == a[0];
      assert s[1..] == a[1..] + [c] + b;
      BeforeFirstOf(a[1..], c, b);
      assert a == [a[0]] + a[1..];
    }
  }

  lemma {:induction false} RemoveKeepsChars(s: string)
    ensures forall c :: c in RemoveDayGroups(s) ==> c in s
    decreases |s|
  {
    if |s| > 0 {
      if OpensDayGroup(s) {
        var k := |BeforeFirst(s[1..], ')')| + 2;
        RemoveKeepsChars(s[k..]);
      } else {
        RemoveKeepsChars(s[1..]);
      }
    }
  }

  lemma NoDayInTail(s: string)
    requires |s| > 0 && !Contains(s, DAY)
    ensures !Contains(s[1..], DAY)
  {
  }

  /** A character that opens no day group is kept and the scan moves on by one. */
  lemma KeepFirst(s: string)
    requires |s| > 0 && !OpensDayGroup(s)
    ensures RemoveDayGroups(s) == [s[0]] + RemoveDayGroups(s[1..])
  {
  }

  lemma ConsClosed(inner: string, r: string)
    requires |inner| > 0
    ensures [inner[0]] + (inner[1..] + ")" + r) == inner + ")" + r
  {
    assert inner == [inner[0]] + inner[1..];
  }

  /** Text up to a ")" whose interior mentions no day passes through unchanged. */
  lemma {:induction false} PassThrough(inner: string, rest: string)
    requires ')' !in inner && !Contains(inner, DAY)
    ensures RemoveDayGroups(inner + ")" + rest) == inner + ")" + RemoveDayGroups(rest)
    decreases |inner|
  {
    var t := inner + ")" + rest;
    if |inner| == 0 {
      assert t == [')'] + rest;
      KeepFirst(t);
      assert t[1..] == rest;
    } else {
      TailOfClosed(inner, rest);
      NotOpensDayGroup(inner, rest);
      KeepFirst(t);
      NoDayInTail(inner);
      PassThrough(inner[1..], rest);
      ConsClosed(inner, RemoveDayGroups(rest));
    }
  }

  /** A "(" followed by a ")"-free body and a ")" opens a day group exactly when the body mentions a day. */
  lemma OpensDayGroupOf(s: string, body: string, rest: string)
    requires |s| > 0 && s[0] == '(' && s[1..] == body + ")" + rest && ')' !in body
    ensures OpensDayGroup(s) <==> Contains(body, DAY)
  {
    BeforeFirstOf(body, ')', rest);
    assert s[1..][|body|] == ')';
  }

  lemma TailOfClosed(inner: string, rest: string)
    requires |inner| > 0 && ')' !in inner
    ensures (inner + ")" + rest)[0] == inner[0]
    ensures (inner + ")" + rest)[1..] == inner[1..] + ")" + rest
    ensures ')' !in inner[1..]
  {
    assert forall k :: 0 <= k < |inner| - 1 ==> inner[1..][k] == inner[k + 1];
  }

  lemma NotOpensDayGroup(inner: string, rest: string)
    requires |inner| > 0 && ')' !in inner && !Contains(inner, DAY)
    ensures !OpensDayGroup(inner + ")" + rest)
  {
    TailOfClosed(inner, rest);
    if inner[0] == '(' {
      NoDayInTail(inner);
      OpensDayGroupOf(inner + ")" + rest, inner[1..], rest);
    }
  }

  /** After `re.sub` no day group is left: removing one never creates another. */
  lemma {:induction false} RemoveDayGroupsComplete(s: string)
    ensures NoDayGroup(RemoveDayGroups(s))
    decreases |s|
  {
    if |s| > 0 {
      if OpensDayGroup(s) {
        RemoveDayGroupsComplete(s[|BeforeFirst(s[1..], ')')| + 2..]);
      } else {
        var r := RemoveDayGroups(s);
        var tail := RemoveDayGroups(s[1..]);
        RemoveDayGroupsComplete(s[1..]);
        assert r == [s[0]] + tail;
        forall p | 0 <= p < |r|
          ensures !OpensDayGroup(r[p..])
        {
          if p > 0 {
            assert r[p..] == tail[p - 1..];
          } else if s[0] == '(' {
            assert r[1..] == tail;
            if ')' in s[1..] {
              var inner := BeforeFirst(s[1..], ')');
              var rest := s[|inner| + 2..];
              assert s[1..] == inner + ")" + rest;
              PassThrough(inner, rest);
              BeforeFirstOf(inner, ')', RemoveDayGroups(rest));
            } else {
              RemoveKeepsChars(s[1..]);
            }
          }
        }
      }
    }
  }

  /** `s` is its part before the first `c`, then `c`, then the remainder. */
  lemma SplitAtFirst(x: string, c: char)
    requires c in x
    ensures c !in BeforeFirst(x, c)
    ensures x == BeforeFirst(x, c) + [c] + x[|BeforeFirst(x, c)| + 1..]
  {
    var a := BeforeFirst(x, c);
    assert x == a + [c] + x[|a| + 1..];
  }

  lemma BeforeFirstExtend(x: string, c: char, z: string)
    requires c in x
    ensures BeforeFirst(x + z, c) == BeforeFirst(x, c)
  {
    var a := BeforeFirst(x, c);
    SplitAtFirst(x, c);
    var b := x[|a| + 1..];
    assert x + z == a + [c] + (b + z);
    BeforeFirstOf(a, c, b + z);
  }

  /** Cutting characters off either end cannot create a day group. */
  lemma NoDayGroupSlice(r: string, a: nat, b: nat)
    requires a <= b <= |r| && NoDayGroup(r)
    ensures NoDayGroup(r[a..b])
  {
    var t := r[a..b];
    forall p | 0 <= p < |t|
      ensures !OpensDayGroup(t[p..])
    {
      var x := t[p..];
      var y := r[a + p..];
      assert x[0] == y[0];
      assert !OpensDayGroup(y);
      if |x| > 0 && x[0] == '(' && ')' in x[1..] {
        assert y[1..] == x[1..] + r[b..];
        BeforeFirstExtend(x[1..], ')', r[b..]);
      }
    }
  }

  /** `strip()` returns a contiguous slice of its argument. */
  lemma StripIsSlice(r: string) returns (a: nat, b: nat)
    ensures a <= b <= |r| && Strip(r) == r[a..b]
  {
    TrimLeftShape(r);
    var left := TrimLeft(r);
    TrimRightShape(left);
    a := |r| - |left|;
    b := a + |TrimRight(left)|;
    assert Strip(r) == left[..|TrimRight(left)|];
  }

  /** The stored title has no date group left and no surrounding whitespace. */
  lemma CleanTitleSpec(title: string)
    ensures NoDayGroup(CleanTitle(title))
    ensures CleanTitle(title) != [] ==> !IsSpace(CleanTitle(title)[0]) && !IsSpace(CleanTitle(title)[|CleanTitle(title)| - 1])
  {
    var r := RemoveDayGroups(title);
    RemoveDayGroupsComplete(title);
    StripShape(r);
    var a, b := StripIsSlice(r);
    NoDayGroupSlice(r, a, b);
  }

  // ---------------------------------------------------------------------
  // Meta items: contract type and location
  // ---------------------------------------------------------------------

  const FULL_TIME := "تمام\U{200C}وقت"
  const FULL_TIME_SPACED := "تمام وقت"
  const PART_TIME := "پاره\U{200C}وقت"
  const PART_TIME_SPACED := "پاره وقت"
  const REMOTE := "دورکاری"
  const PROJECT := "پروژه\U{200C}ای"
  const TEHRAN := "تهران"
  const ARABIC_COMMA := '،'

  /** The contract type a meta item names, first match in the fixed priority order. */
  function ContractPick(text: string): (c: Option<string>)
    ensures c.Some? ==> c.value in {FULL_TIME, PART_TIME, REMOTE, PROJECT}
    ensures Contains(text, FULL_TIME) || Contains(text, FULL_TIME_SPACED) ==> c == Some(FULL_TIME)
    ensures c.None? <==> !Contains(text, FULL_TIME) && !Contains(text, FULL_TIME_SPACED) &&
                         !Contains(text, PART_TIME) && !Contains(text, PART_TIME_SPACED) &&
                         !Contains(text, REMOTE) && !Contains(text, PROJECT)
  {
    if Contains(text, FULL_TIME) || Contains(text, FULL_TIME_SPACED) then Some(FULL_TIME)
    else if Contains(text, PART_TIME) || Contains(text, PART_TIME_SPACED) then Some(PART_TIME)
    else if Contains(text, REMOTE) then Some(REMOTE)
    else if Contains(text, PROJECT) then Some(PROJECT)
    else None
  }

  /** A meta item is taken as the location only when it names no contract type. */
  function LocationPick(text: string): (l: Option<string>)
    ensures l.Some? ==> l.value == text && ContractPick(text).None?
    ensures l.Some? <==> ContractPick(text).None? && (Contains(text, TEHRAN) || ARABIC_COMMA in text)
  {
    if ContractPick(text).None? && (Contains(text, TEHRAN) || ARABIC_COMMA in text) then Some(text) else None
  }

  /** The value of the last element that `pick` accepts, or `fallback` when none does. */
  function LastPick<T>(xs: seq<T>, pick: T -> Option<string>, fallback: string): string
    decreases |xs|
  {
    if |xs| == 0 then fallback
    else match pick(xs[|xs| - 1])
      case Some(v) => v
      case None => LastPick(xs[..|xs| - 1], pick, fallback)
  }

  /** Without any match the initial value stays. */
  lemma {:induction false} LastPickNone<T>(xs: seq<T>, pick: T -> Option<string>, fallback: string)
    requires forall i :: 0 <= i < |xs| ==> pick(xs[i]).None?
    ensures LastPick(xs, pick, fallback) == fallback
    decreases |xs|
  {
    if |xs| > 0 {
      var init := xs[..|xs| - 1];
      forall i | 0 <= i < |init|
        ensures pick(init[i]).None?
      {
        assert init[i] == xs[i];
      }
      LastPickNone(init, pick, fallback);
    }
  }

  /** Later elements overwrite earlier ones: the last match decides. */
  lemma {:induction false} LastPickLast<T>(xs: seq<T>, pick: T -> Option<string>, fallback: string, i: nat)
    requires i < |xs| && pick(xs[i]).Some?
    requires forall k :: i < k < |xs| ==> pick(xs[k]).None?
    ensures LastPick(xs, pick, fallback) == pick(xs[i]).value
    decreases |xs|
  {
    if i < |xs| - 1 {
      var init := xs[..|xs| - 1];
      assert init[i] == xs[i];
      forall k | i < k < |init|
        ensures pick(init[k]).None?
      {
        assert init[k] == xs[k];
      }
      LastPickLast(init, pick, fallback, i);
    }
  }

  /** Location and contract type of a card, both "N/A" until a meta item sets them. */
  datatype Meta = Meta(location: string, contractType: string)

  function MetaOf(items: seq<string>): Meta {
    Meta(LastPick(items, LocationPick, NOT_AVAILABLE), LastPick(items, ContractPick, NOT_AVAILABLE))
  }

  /** The loop over `c-jobListView__metaItem` texts. */
  method ClassifyMeta(items: seq<string>) returns (location: string, contractType: string)
    ensures Meta(location, contractType) == MetaOf(items)
  {
    location, contractType := NOT_AVAILABLE, NOT_AVAILABLE;
    var i := 0;
    while i < |items|
      invariant 0 <= i <= |items|
      invariant location == LastPick(items[..i], LocationPick, NOT_AVAILABLE)
      invariant contractType == LastPick(items[..i], ContractPick, NOT_AVAILABLE)
    {
      var text := items[i];
      assert items[..i + 1][..i] == items[..i];
      if Contains(text, FULL_TIME) || Contains(text, FULL_TIME_SPACED) {
        contractType := FULL_TIME;
      } else if Contains(text, PART_TIME) || Contains(text, PART_TIME_SPACED) {
        contractType := PART_TIME;
      } else if Contains(text, REMOTE) {
        contractType := REMOTE;
      } else if Contains(text, PROJECT) {
        contractType := PROJECT;
      } else if Contains(text, TEHRAN) || ARABIC_COMMA in text {
        location := text;
      }
      i := i + 1;
    }
    assert items[..|items|] == items;
  }

  /**
   * Contract-type keywords take precedence over location, later items
   * overwrite earlier ones, and both fields default to "N/A".
   */
  lemma MetaOfSpec(items: seq<string>)
    ensures MetaOf(items).contractType == NOT_AVAILABLE || MetaOf(items).contractType in {FULL_TIME, PART_TIME, REMOTE, PROJECT}
    ensures MetaOf(items).location == NOT_AVAILABLE ||
            exists i :: 0 <= i < |items| && items[i] == MetaOf(items).location && ContractPick(items[i]).None?
    ensures (forall i :: 0 <= i < |items| ==> ContractPick(items[i]).None?) ==> MetaOf(items).contractType == NOT_AVAILABLE
    ensures (forall i :: 0 <= i < |items| ==> LocationPick(items[i]).None?) ==> MetaOf(items).location == NOT_AVAILABLE
    ensures forall i :: 0 <= i < |items| && ContractPick(items[i]).Some? && (forall k :: i < k < |items| ==> ContractPick(items[k]).None?) ==>
              MetaOf(items).contractType == ContractPick(items[i]).value
    ensures forall i :: 0 <= i < |items| && LocationPick(items[i]).Some? && (forall k :: i < k < |items| ==> LocationPick(items[k]).None?) ==>
              MetaOf(items).location == items[i]
  {
    if forall i :: 0 <= i < |items| ==> ContractPick(items[i]).None? {
      LastPickNone(items, ContractPick, NOT_AVAILABLE);
    }
    if forall i :: 0 <= i < |items| ==> LocationPick(items[i]).None? {
      LastPickNone(items, LocationPick, NOT_AVAILABLE);
    }
    forall i | 0 <= i < |items| && ContractPick(items[i]).Some? && (forall k :: i < k < |items| ==> ContractPick(items[k]).None?)
      ensures MetaOf(items).contractType == ContractPick(items[i]).value
    {
      LastPickLast(items, ContractPick, NOT_AVAILABLE, i);
    }
    forall i | 0 <= i < |items| && LocationPick(items[i]).Some? && (forall k :: i < k < |items| ==> LocationPick(items[k]).None?)
      ensures MetaOf(items).location == items[i]
    {
      LastPickLast(items, LocationPick, NOT_AVAILABLE, i);
    }
    LastPickValue(items, ContractPick, NOT_AVAILABLE);
    LastPickValue(items, LocationPick, NOT_AVAILABLE);
  }

  /** The picked value is the fallback or the value some element yields. */
  lemma {:induction false} LastPickValue<T>(xs: seq<T>, pick: T -> Option<string>, fallback: string)
    ensures LastPick(xs, pick, fallback) == fallback ||
            exists i :: 0 <= i < |xs| && pick(xs[i]) == Some(LastPick(xs, pick, fallback))
    decreases |xs|
  {
    if |xs| > 0 {
      var init := xs[..|xs| - 1];
      LastPickValue(init, pick, fallback);
      if pick(xs[|xs| - 1]).None? && LastPick(init, pick, fallback) != fallback {
        var i :| 0 <= i < |init| && pick(init[i]) == Some(LastPick(init, pick, fallback));
        assert init[i] == xs[i];
      }
    }
  }

  // ---------------------------------------------------------------------
  // Links
  // ---------------------------------------------------------------------

  const JOBINJA_ORIGIN := "https://jobinja.ir"

  /** Jobinja_scraper.py: a site-relative link gets the site origin in front. */
  function JobinjaLink(href: string): (link: string)
    ensures StartsWith(href, "/") ==> link == JOBINJA_ORIGIN + href
    ensures !StartsWith(href, "/") ==> link == href
  {
    if |href| > 0 && href[0] == '/' then JOBINJA_ORIGIN + href else href
  }

  /** Making a link absolute twice changes nothing the second time. */
  lemma JobinjaLinkIdempotent(href: string)
    ensures JobinjaLink(JobinjaLink(href)) == JobinjaLink(href)
    ensures !StartsWith(JobinjaLink(href), "/")
  {
  }

  // ---------------------------------------------------------------------
  // Job page details
  // ---------------------------------------------------------------------

  /** One `c-infoBox`: the texts of its label and value spans, when present. */
  datatype InfoBox = InfoBox(labelText: Option<string>, valueText: Option<string>)

  /**
   * A loaded job page: its info boxes in document order, the text of its
   * `c-jobView__meta` block, the text of the first `div` of each class, and
   * the text of the first `div` whose id mentions "description".
   */
  datatype DetailPage = DetailPage(
    infoBoxes: seq<InfoBox>,
    metaText: Option<string>,
    divText: map<string, string>,
    descriptionById: Option<string>)

  datatype Details = Details(requirements: string, salary: string, workingHours: string)

  const WORKING_HOURS := "ساعت کاری"
  const WAGE := "حقوق"
  const PAY := "دستمزد"
  const TOMAN := "تومان"

  const DEFAULT_DETAILS := Details(NOT_AVAILABLE, NEGOTIABLE, STANDARD_HOURS)

  const DESCRIPTION_LIMIT := 3000
  const SALARY_FALLBACK_LIMIT := 200

  /** Description classes tried by Enhanced_Job_Scraper_with_AntiDetection.py. */
  const THREE_DESCRIPTION_CLASSES := ["o-box__text s-jobDesc c-pr40p", "c-jobView__description", "o-box__text"]
  /** Description classes tried by Jobinja_scraper.py and scraper/fixed_scraper.py. */
  const FOUR_DESCRIPTION_CLASSES := THREE_DESCRIPTION_CLASSES + ["o-box__content"]

  /** A box labelled "working hours" that has a value. */
  function HoursPick(box: InfoBox): Option<string> {
    if box.labelText.Some? && Contains(box.labelText.value, WORKING_HOURS) && box.valueText.Some? then box.valueText else None
  }

  /** Jobinja_scraper.py: a box with both spans that mentions wage or pay. */
  function SalaryPick(box: InfoBox): Option<string> {
    if box.labelText.Some? && box.valueText.Some? &&
       (Contains(box.labelText.value, WAGE) || Contains(box.labelText.value, PAY) || Contains(box.valueText.value, WAGE))
    then box.valueText else None
  }

  /** `soup.find('div', class_=c)` over the candidate classes in order; the first hit wins. */
  function FirstDescription(divText: map<string, string>, classes: seq<string>): (d: Option<string>)
    ensures d.None? <==> forall k :: 0 <= k < |classes| ==> classes[k] !in divText
    ensures d.Some? ==> exists k :: 0 <= k < |classes| && classes[k] in divText && d.value == divText[classes[k]] &&
                          forall m :: 0 <= m < k ==> classes[m] !in divText
    decreases |classes|
  {
    if |classes| == 0 then None
    else if classes[0] in divText then Some(divText[classes[0]])
    else
      var d := FirstDescription(divText, classes[1..]);
      if d.Some? then
        var k :| 0 <= k < |classes[1..]| && classes[1..][k] in divText && d.value == divText[classes[1..][k]] &&
                  forall m :: 0 <= m < k ==> classes[1..][m] !in divText;
        assert classes[k + 1] == classes[1..][k];
        assert forall m :: 0 < m < k + 1 ==> classes[m] == classes[1..][m - 1];
        d
      else d
  }

  /** The requirements text: the description cut to its first 3000 characters, else "N/A". */
  function Requirements(description: Option<string>): (r: string)
    ensures description.None? ==> r == NOT_AVAILABLE
    ensures description.Some? ==> |r| <= DESCRIPTION_LIMIT && StartsWith(description.value, r)
  {
    TakeBound(if description.Some? then description.value else "", DESCRIPTION_LIMIT);
    if description.Some? then Take(description.value, DESCRIPTION_LIMIT) else NOT_AVAILABLE
  }

  /**
   * `get_jobinja_details` (three description classes) and scraper/fixed_scraper.py
   * `get_job_details` (four): the salary is the value of the first info box,
   * the working hours come from the last box labelled with them.
   */
  method FirstBoxDetails(page: Option<DetailPage>, descriptionClasses: seq<string>) returns (d: Details)
    ensures page.None? ==> d == DEFAULT_DETAILS
    ensures page.Some? ==> d.salary == (if |page.value.infoBoxes| > 0 && page.value.infoBoxes[0].valueText.Some?
                                        then page.value.infoBoxes[0].valueText.value else NEGOTIABLE)
    ensures page.Some? ==> d.requirements == Requirements(FirstDescription(page.value.divText, descriptionClasses))
    ensures page.Some? ==> d.workingHours == LastPick(page.value.infoBoxes, HoursPick, STANDARD_HOURS)
  {
    d := DEFAULT_DETAILS;
    if page.None? {
      return;
    }
    var boxes := page.value.infoBoxes;
    if |boxes| > 0 && boxes[0].valueText.Some? {
      d := d.(salary := boxes[0].valueText.value);
    }
    var description := FirstDescription(page.value.divText, descriptionClasses);
    if description.Some? {
      d := d.(requirements := Take(description.value, DESCRIPTION_LIMIT));
    }
    var i := 0;
    while i < |boxes|
      invariant 0 <= i <= |boxes|
      invariant d.workingHours == LastPick(boxes[..i], HoursPick, STANDARD_HOURS)
      invariant d.requirements == Requirements(description)
      invariant d.salary == (if |boxes| > 0 && boxes[0].valueText.Some? then boxes[0].valueText.value else NEGOTIABLE)
    {
      assert boxes[..i + 1][..i] == boxes[..i];
      var box := boxes[i];
      if box.labelText.Some? && Contains(box.labelText.value, WORKING_HOURS) {
        if box.valueText.Some? {
          d := d.(workingHours := box.valueText.value);
        }
      }
      i := i + 1;
    }
    assert boxes[..|boxes|] == boxes;
  }

  /** The salary Jobinja_scraper.py keeps after the info boxes and the meta-text fallback. */
  function JobinjaSalary(page: DetailPage): (s: string)
    ensures s != LastPick(page.infoBoxes, SalaryPick, NEGOTIABLE) ==>
              LastPick(page.infoBoxes, SalaryPick, NEGOTIABLE) == NEGOTIABLE && page.metaText.Some? &&
              (Contains(page.metaText.value, TOMAN) || Contains(page.metaText.value, WAGE)) &&
              s == Take(page.metaText.value, SALARY_FALLBACK_LIMIT)
  {
    var fromBoxes := LastPick(page.infoBoxes, SalaryPick, NEGOTIABLE);
    if fromBoxes == NEGOTIABLE && page.metaText.Some? &&
       (Contains(page.metaText.value, TOMAN) || Contains(page.metaText.value, WAGE))
    then Take(page.metaText.value, SALARY_FALLBACK_LIMIT)
    else fromBoxes
  }

  /** The fallback salary never exceeds 200 characters. */
  lemma JobinjaSalaryBound(page: DetailPage)
    ensures JobinjaSalary(page) == LastPick(page.infoBoxes, SalaryPick, NEGOTIABLE) ||
            |JobinjaSalary(page)| <= SALARY_FALLBACK_LIMIT
  {
    if page.metaText.Some? {
      TakeBound(page.metaText.value, SALARY_FALLBACK_LIMIT);
    }
  }

  /** The description Jobinja_scraper.py uses: four classes in order, then an id mentioning "description". */
  function JobinjaDescription(page: DetailPage): Option<string> {
    var byClass := FirstDescription(page.divText, FOUR_DESCRIPTION_CLASSES);
    if byClass.Some? then byClass else page.descriptionById
  }

  /** Jobinja_scraper.py `get_job_details`. */
  method JobinjaDetails(url: string, page: Option<DetailPage>) returns (d: Details)
    ensures url == [] || page.None? ==> d == DEFAULT_DETAILS
    ensures url != [] && page.Some? ==>
              d == Details(Requirements(JobinjaDescription(page.value)), JobinjaSalary(page.value),
                           LastPick(page.value.infoBoxes, HoursPick, STANDARD_HOURS))
  {
    d := DEFAULT_DETAILS;
    if url == [] || page.None? {
      return;
    }
    var boxes := page.value.infoBoxes;
    var i := 0;
    while i < |boxes|
      invariant 0 <= i <= |boxes|
      invariant d.salary == LastPick(boxes[..i], SalaryPick, NEGOTIABLE)
      invariant d.workingHours == LastPick(boxes[..i], HoursPick, STANDARD_HOURS)
      invariant d.requirements == NOT_AVAILABLE
    {
      assert boxes[..i + 1][..i] == boxes[..i];
      var box := boxes[i];
      if box.labelText.Some? && box.valueText.Some? {
        var caption := box.labelText.value;
        if Contains(caption, WAGE) || Contains(caption, PAY) || Contains(box.valueText.value, WAGE) {
          d := d.(salary := box.valueText.value);
        }
        if Contains(caption, WORKING_HOURS) {
          d := d.(workingHours := box.valueText.value);
        }
      }
      i := i + 1;
    }
    assert boxes[..|boxes|] == boxes;
    if d.salary == NEGOTIABLE {
      var meta := page.value.metaText;
      if meta.Some? && (Contains(meta.value, TOMAN) || Contains(meta.value, WAGE)) {
        d := d.(salary := Take(meta.value, SALARY_FALLBACK_LIMIT));
      }
    }
    var description: Option<string> := None;
    var k := 0;
    while k < |FOUR_DESCRIPTION_CLASSES|
      invariant 0 <= k <= |FOUR_DESCRIPTION_CLASSES|
      invariant description.None? ==> FirstDescription(page.value.divText, FOUR_DESCRIPTION_CLASSES) ==
                                       FirstDescription(page.value.divText, FOUR_DESCRIPTION_CLASSES[k..])
      invariant description.Some? ==> description == FirstDescription(page.value.divText, FOUR_DESCRIPTION_CLASSES)
    {
      var candidate := FOUR_DESCRIPTION_CLASSES[k];
      assert FOUR_DESCRIPTION_CLASSES[k..][1..] == FOUR_DESCRIPTION_CLASSES[k + 1..];
      if candidate in page.value.divText {
        description := Some(page.value.divText[candidate]);
        break;
      }
      k := k + 1;
    }
    if description.None? {
      description := page.value.descriptionById;
    }
    if description.Some? {
      d := d.(requirements := Take(description.value, DESCRIPTION_LIMIT));
    }
  }

  // ---------------------------------------------------------------------
  // Listing cards
  // ---------------------------------------------------------------------

  /** The `a` inside `h2.o-listView__itemTitle`: its text and its `href` ("" when absent). */
  datatype TitleLink = TitleLink(text: string, href: string)

  /**
   * One `li.c-jobListView__item`: the title link (`None` when the heading or
   * its link is missing), the company text and the meta-item texts.
   */
  datatype JobinjaCard = JobinjaCard(titleLink: Option<TitleLink>, company: Option<string>, metaItems: seq<string>)

  /** The record a card yields once its link and the job page's details are known. */
  function CardRecord(card: JobinjaCard, link: string, details: Details, now: string): (r: Option<JobRecord>)
    ensures r.None? <==> card.titleLink.None?
    ensures r.Some? ==> r.value.link == link && r.value.source == "Jobinja" &&
                        r.value.title == CleanTitle(card.titleLink.value.text)
  {
    if card.titleLink.None? then None
    else
      var meta := MetaOf(card.metaItems);
      Some(JobRecord(
        now,
        CleanTitle(card.titleLink.value.text),
        if card.company.Some? then card.company.value else NOT_AVAILABLE,
        meta.location,
        details.requirements,
        details.salary,
        meta.contractType,
        details.workingHours,
        link,
        "Jobinja"))
  }

  /**
   * Enhanced_Job_Scraper_with_AntiDetection.py and scraper/fixed_scraper.py:
   * the link is kept exactly as read; `page` is the job page behind it.
   */
  method ParseCardAsRead(card: JobinjaCard, page: Option<DetailPage>, descriptionClasses: seq<string>, now: string)
    returns (r: Option<JobRecord>)
    ensures r.None? <==> card.titleLink.None?
    ensures r.Some? ==> r.value.link == card.titleLink.value.href
    ensures r.Some? ==> r.value.title == CleanTitle(card.titleLink.value.text) && r.value.dateAdded == now &&
                        r.value.company == (if card.company.Some? then card.company.value else NOT_AVAILABLE) &&
                        r.value.source == "Jobinja"
    ensures r.Some? ==> NoDayGroup(r.value.title)
    ensures r.Some? ==> r.value.location == MetaOf(card.metaItems).location &&
                        r.value.contractType == MetaOf(card.metaItems).contractType
    ensures r.Some? && page.None? ==> r.value.requirements == NOT_AVAILABLE && r.value.salary == NEGOTIABLE &&
                                      r.value.workingHours == STANDARD_HOURS
    ensures r.Some? && page.Some? ==> |r.value.requirements| <= DESCRIPTION_LIMIT || r.value.requirements == NOT_AVAILABLE
    ensures r.Some? && page.Some? ==>
              r.value.requirements == Requirements(FirstDescription(page.value.divText, descriptionClasses)) &&
              r.value.salary == (if |page.value.infoBoxes| > 0 && page.value.infoBoxes[0].valueText.Some?
                                 then page.value.infoBoxes[0].valueText.value else NEGOTIABLE) &&
              r.value.workingHours == LastPick(page.value.infoBoxes, HoursPick, STANDARD_HOURS)
  {
    if card.titleLink.None? {
      return None;
    }
    var link := card.titleLink.value.href;
    CleanTitleSpec(card.titleLink.value.text);
    var location, contractType := ClassifyMeta(card.metaItems);
    var details := FirstBoxDetails(page, descriptionClasses);
    if page.Some? {
      var _ := Requirements(FirstDescription(page.value.divText, descriptionClasses));
    }
    r := CardRecord(card, link, details, now);
  }

  /** Jobinja_scraper.py: the link is made absolute before the job page is read. */
  method ParseCardAbsolute(card: JobinjaCard, page: Option<DetailPage>, now: string) returns (r: Option<JobRecord>)
    ensures r.None? <==> card.titleLink.None?
    ensures r.Some? ==> r.value.link == JobinjaLink(card.titleLink.value.href)
    ensures r.Some? ==> r.value.title == CleanTitle(card.titleLink.value.text) && r.value.dateAdded == now &&
                        r.value.company == (if card.company.Some? then card.company.value else NOT_AVAILABLE) &&
                        r.value.source == "Jobinja"
    ensures r.Some? ==> NoDayGroup(r.value.title)
    ensures r.Some? ==> r.value.location == MetaOf(card.metaItems).location &&
                        r.value.contractType == MetaOf(card.metaItems).contractType
    ensures r.Some? && (card.titleLink.value.href == [] || page.None?) ==>
              r.value.requirements == NOT_AVAILABLE && r.value.salary == NEGOTIABLE && r.value.workingHours == STANDARD_HOURS
    ensures r.Some? && card.titleLink.value.href != [] && page.Some? ==>
              r.value.requirements == Requirements(JobinjaDescription(page.value)) &&
              r.value.salary == JobinjaSalary(page.value) &&
              r.value.workingHours == LastPick(page.value.infoBoxes, HoursPick, STANDARD_HOURS)
  {
    if card.titleLink.None? {
      return None;
    }
    var link := JobinjaLink(card.titleLink.value.href);
    CleanTitleSpec(card.titleLink.value.text);
    var location, contractType := ClassifyMeta(card.metaItems);
    var details := JobinjaDetails(link, page);
    r := CardRecord(card, link, details, now);
  }

  // ---------------------------------------------------------------------
  // Scrolling
  // ---------------------------------------------------------------------

  /**
   * `scroll_page`: `heights[0]` is the page height before scrolling and
   * `heights[k]` the height the browser reports after the k-th scroll.
   * Returns how many scrolls were made: at most three, stopping after the
   * first scroll that left the height unchanged.
   */
  method ScrollPage(heights: seq<int>) returns (scrolls: nat)
    requires |heights| == 4
    ensures 1 <= scrolls <= 3
    ensures forall k :: 1 <= k < scrolls ==> heights[k] != heights[k - 1]
    ensures scrolls < 3 ==> heights[scrolls] == heights[scrolls - 1]
  {
    var lastHeight := heights[0];
    scrolls := 0;
    while scrolls < 3
      invariant 0 <= scrolls <= 3
      invariant scrolls > 0 ==> lastHeight == heights[scrolls]
      invariant scrolls == 0 ==> lastHeight == heights[0]
      invariant forall k :: 1 <= k <= scrolls ==> heights[k] != heights[k - 1]
    {
      var newHeight := heights[scrolls + 1];
      if newHeight == lastHeight {
        scrolls := scrolls + 1;
        return;
      }
      lastHeight := newHeight;
      scrolls := scrolls + 1;
    }
  }
}
