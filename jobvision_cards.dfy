/**
 * JobVision listing pages as read by the Enhanced scraper and by the
 * basic function-style scraper: which anchors count as job links, how the
 * card container around an anchor is found, what a card yields, how cards
 * are de-duplicated by `href`, and how the requirements text of a job page
 * is assembled.  The HTML tree is given as the texts the parser pulls out.
 */
module JobVisionCards {
  import opened Text
  import opened Listing

  /** Which copy of the JobVision code: the Enhanced scraper class or the basic script. */
  datatype Variant = Enhanced | Basic

  const JOBVISION_ORIGIN := "https://jobvision.ir"

  // ---------------------------------------------------------------------
  // Job-link selection and the card container
  // ---------------------------------------------------------------------

  /** `href and '/jobs/' in href and len(href) > 20`: the anchors the scrape looks at. */
  predicate JobLinkSelected(href: Option<string>) {
    href.Some? && Contains(href.value, "/jobs/") && |href.value| > 20
  }

  /**
   * What the card extractor reads in a container: the text of the first
   * title-like element, of the anchor with the job's `href`, of the company
   * and location elements and, for the Enhanced scraper, of the contract
   * span; `None` where the element is missing.
   */
  datatype Container = Container(
    titleText: Option<string>,
    linkText: Option<string>,
    company: Option<string>,
    location: Option<string>,
    contract: Option<string>)

  /**
   * A selected anchor: its `href` and its ancestors from its parent up to
   * the document root.
   */
  datatype Anchor = Anchor(href: string, ancestors: seq<Container>)

  /** The parent, climbed at most five more times while a further parent exists. */
  function ContainerOf(ancestors: seq<Container>): (c: Option<Container>)
    ensures c.None? <==> ancestors == []
  {
    if |ancestors| == 0 then None else Some(ancestors[Min(5, |ancestors| - 1)])
  }

  /** The climbing loop: never more than five steps up, and never past the root. */
  method ClimbContainer(ancestors: seq<Container>) returns (c: Option<Container>, climbed: nat)
    ensures c == ContainerOf(ancestors)
    ensures climbed <= 5
    ensures c.Some? ==> climbed < |ancestors| && c.value == ancestors[climbed]
    ensures climbed < 5 && ancestors != [] ==> climbed == |ancestors| - 1
  {
    if |ancestors| == 0 {
      return None, 0;
    }
    climbed := 0;
    var step := 0;
    while step < 5
      invariant 0 <= step <= 5
      invariant climbed == step
      invariant climbed < |ancestors|
    {
      if climbed + 1 < |ancestors| {
        climbed := climbed + 1;
      } else {
        break;
      }
      step := step + 1;
    }
    c := Some(ancestors[climbed]);
  }

  // ---------------------------------------------------------------------
  // Card info
  // ---------------------------------------------------------------------

  /** The status labels the Enhanced scraper removes from the front of a title. */
  const ENHANCED_PREFIXES := ["فوری", "کارفرمای پاسخگو", "در حال بررسی رزومه ها", "امکان دورکاری", "امکان جذب کارآموز"]
  /** The status labels the basic script removes. */
  const BASIC_PREFIXES := ["فوری", "کارفرمای پاسخگو", "در حال بررسی"]

  function StatusPrefixes(variant: Variant): seq<string> {
    if variant == Enhanced then ENHANCED_PREFIXES else BASIC_PREFIXES
  }

  /**
   * `re.sub('^(p1|p2|...)', '', s)`: the first listed label that `s` starts
   * with is cut off; the pattern is anchored, so nothing else is touched.
   */
  function StripStatusPrefix(s: string, prefixes: seq<string>): (r: string)
    ensures r == s || exists k :: 0 <= k < |prefixes| && s == prefixes[k] + r
    ensures (forall k :: 0 <= k < |prefixes| ==> !StartsWith(s, prefixes[k])) ==> r == s
    decreases |prefixes|
  {
    if |prefixes| == 0 then s
    else if StartsWith(s, prefixes[0]) then
      assert s == prefixes[0] + s[|prefixes[0]|..];
      s[|prefixes[0]|..]
    else
      var r := StripStatusPrefix(s, prefixes[1..]);
      if r != s then
        var k :| 0 <= k < |prefixes[1..]| && s == prefixes[1..][k] + r;
        assert prefixes[k + 1] == prefixes[1..][k];
        r
      else r
  }

  /** The label cut off is the first one in list order that the title starts with. */
  lemma StripStatusPrefixFirst(s: string, prefixes: seq<string>, k: nat)
    requires k < |prefixes| && StartsWith(s, prefixes[k])
    requires forall m :: 0 <= m < k ==> !StartsWith(s, prefixes[m])
    ensures StripStatusPrefix(s, prefixes) == s[|prefixes[k]|..]
    decreases k
  {
    if k > 0 {
      StripStatusPrefixFirst(s, prefixes[1..], k - 1);
    }
  }

  /** Only one label goes: a title carrying "urgent" twice keeps the second one. */
  lemma StripStatusPrefixOnce()
    ensures StripStatusPrefix("فوریفوری", ENHANCED_PREFIXES) == "فوری"
  {
    assert StartsWith("فوریفوری", ENHANCED_PREFIXES[0]);
  }

  /**
   * The title text before cleaning: the title element's text, replaced by
   * the anchor's text when that is missing or shorter than ten characters.
   */
  function RawTitle(c: Container): (t: string)
    ensures c.titleText.Some? && |c.titleText.value| >= 10 ==> t == c.titleText.value
    ensures (c.titleText.None? || |c.titleText.value| < 10) && c.linkText.Some? ==> t == c.linkText.value
    ensures c.titleText.None? && c.linkText.None? ==> t == []
  {
    var title := if c.titleText.Some? then c.titleText.value else [];
    if |title| < 10 && c.linkText.Some? then c.linkText.value else title
  }

  function CardTitle(c: Container, variant: Variant): string {
    var raw := RawTitle(c);
    if raw == [] then raw else Strip(StripStatusPrefix(raw, StatusPrefixes(variant)))
  }

  /** `href` when it already starts with "http", else the site origin followed by `href`. */
  function JobVisionLink(href: string): (link: string)
    ensures StartsWith(link, "http")
    ensures StartsWith(href, "http") ==> link == href
    ensures !StartsWith(href, "http") ==> link == JOBVISION_ORIGIN + href
  {
    if StartsWith(href, "http") then href
    else
      assert (JOBVISION_ORIGIN + href)[..4] == "http";
      JOBVISION_ORIGIN + href
  }

  lemma JobVisionLinkIdempotent(href: string)
    ensures JobVisionLink(JobVisionLink(href)) == JobVisionLink(href)
  {
  }

  datatype CardInfo = CardInfo(title: string, company: string, location: string, contractType: string, link: string)

  /** `extract_jobvision_card_info`: a card is kept only when its cleaned title is longer than five characters. */
  function ExtractCardInfo(c: Container, href: string, variant: Variant): (r: Option<CardInfo>)
    ensures r.Some? <==> |CardTitle(c, variant)| > 5
    ensures r.Some? ==> r.value.title == CardTitle(c, variant) && r.value.link == JobVisionLink(href)
    ensures r.Some? && variant == Basic ==> r.value.contractType == NOT_AVAILABLE
    ensures r.Some? && variant == Enhanced ==> r.value.contractType == (if c.contract.Some? then c.contract.value else NOT_AVAILABLE)
  {
    var title := CardTitle(c, variant);
    if |title| > 5 then
      Some(CardInfo(
        title,
        if c.company.Some? then c.company.value else NOT_AVAILABLE,
        if c.location.Some? then c.location.value else NOT_AVAILABLE,
        if variant == Enhanced && c.contract.Some? then c.contract.value else NOT_AVAILABLE,
        JobVisionLink(href)))
    else None
  }

  /** A kept title never starts or ends with whitespace. */
  lemma CardTitleTrimmed(c: Container, variant: Variant)
    ensures CardTitle(c, variant) != [] ==>
              !IsSpace(CardTitle(c, variant)[0]) && !IsSpace(CardTitle(c, variant)[|CardTitle(c, variant)| - 1])
  {
    if RawTitle(c) != [] {
      StripShape(StripStatusPrefix(RawTitle(c), StatusPrefixes(variant)));
    }
  }

  // ---------------------------------------------------------------------
  // unique_jobs: one card per href, first successful card wins
  // ---------------------------------------------------------------------

  /** Climb to the container, then read the card there. */
  function Attempt(a: Anchor, variant: Variant): Option<CardInfo> {
    var c := ContainerOf(a.ancestors);
    if c.None? then None else ExtractCardInfo(c.value, a.href, variant)
  }

  /** An anchor's `href` together with the card that reading it would give. */
  datatype Try = Try(href: string, card: Option<CardInfo>)

  function Tries(anchors: seq<Anchor>, variant: Variant): (ts: seq<Try>)
    ensures |ts| == |anchors|
    ensures forall i :: 0 <= i < |anchors| ==> ts[i] == Try(anchors[i].href, Attempt(anchors[i], variant))
  {
    seq(|anchors|, i requires 0 <= i < |anchors| => Try(anchors[i].href, Attempt(anchors[i], variant)))
  }

  function Keys(entries: seq<(string, CardInfo)>): (ks: seq<string>)
    ensures |ks| == |entries|
    ensures forall i :: 0 <= i < |entries| ==> ks[i] == entries[i].0
  {
    seq(|entries|, i requires 0 <= i < |entries| => entries[i].0)
  }

  /** The anchor is passed over before any card is read. */
  predicate Skipped(entries: seq<(string, CardInfo)>, href: string, variant: Variant) {
    Contains(href, "/type/") || (variant == Enhanced && href == []) || href in Keys(entries)
  }

  /**
   * The page only yields anchors whose `href` holds "/jobs/" and is longer
   * than 20 characters, so the Enhanced scraper's extra test for an empty
   * `href` never fires: both variants pass over the same anchors.
   */
  lemma EmptyHrefTestDead(entries: seq<(string, CardInfo)>, href: string)
    requires JobLinkSelected(Some(href))
    ensures href != []
    ensures Skipped(entries, href, Enhanced) <==> Skipped(entries, href, Basic)
  {
  }

  function AddUnique(entries: seq<(string, CardInfo)>, t: Try, variant: Variant): seq<(string, CardInfo)> {
    if Skipped(entries, t.href, variant) || t.card.None? then entries else entries + [(t.href, t.card.value)]
  }

  /** The `unique_jobs` dictionary after the given tries, in insertion order. */
  function UniqueEntries(tries: seq<Try>, variant: Variant): seq<(string, CardInfo)>
    decreases |tries|
  {
    if |tries| == 0 then []
    else AddUnique(UniqueEntries(tries[..|tries| - 1], variant), tries[|tries| - 1], variant)
  }

  function UniqueJobs(anchors: seq<Anchor>, variant: Variant): seq<(string, CardInfo)> {
    UniqueEntries(Tries(anchors, variant), variant)
  }

  /** One prefix of the tries further: the next try is added to the entries so far. */
  lemma UniqueEntriesStep(tries: seq<Try>, i: nat, variant: Variant)
    requires i < |tries|
    ensures UniqueEntries(tries[..i + 1], variant) == AddUnique(UniqueEntries(tries[..i], variant), tries[i], variant)
  {
    assert tries[..i + 1][..i] == tries[..i];
  }

  /** One pass of the anchor loop: skip, or parse the card and keep it when it parses. */
  method AddAnchor(entries: seq<(string, CardInfo)>, a: Anchor, variant: Variant) returns (next: seq<(string, CardInfo)>)
    ensures next == AddUnique(entries, Try(a.href, Attempt(a, variant)), variant)
  {
    next := entries;
    if !Skipped(entries, a.href, variant) {
      var container, _ := ClimbContainer(a.ancestors);
      if container.Some? {
        var info := ExtractCardInfo(container.value, a.href, variant);
        assert info == Attempt(a, variant);
        if info.Some? {
          next := entries + [(a.href, info.value)];
        }
      } else {
        assert Attempt(a, variant).None?;
      }
    }
  }

  /** The loop filling `unique_jobs`. */
  method CollectUniqueJobs(anchors: seq<Anchor>, variant: Variant) returns (entries: seq<(string, CardInfo)>)
    ensures entries == UniqueJobs(anchors, variant)
  {
    var tries := Tries(anchors, variant);
    entries := [];
    var i := 0;
    while i < |anchors|
      invariant 0 <= i <= |anchors|
      invariant entries == UniqueEntries(tries[..i], variant)
    {
      UniqueEntriesStep(tries, i, variant);
      entries := AddAnchor(entries, anchors[i], variant);
      i := i + 1;
    }
    assert tries[..|anchors|] == tries;
  }

  /** Every key is unique, free of "/type/", and there are no more entries than tries. */
  lemma {:induction false} UniqueEntriesDistinct(tries: seq<Try>, variant: Variant)
    ensures forall i, j :: 0 <= i < j < |UniqueEntries(tries, variant)| ==>
              UniqueEntries(tries, variant)[i].0 != UniqueEntries(tries, variant)[j].0
    ensures forall i :: 0 <= i < |UniqueEntries(tries, variant)| ==> !Contains(UniqueEntries(tries, variant)[i].0, "/type/")
    ensures |UniqueEntries(tries, variant)| <= |tries|
    decreases |tries|
  {
    if |tries| > 0 {
      var n := |tries| - 1;
      var t := tries[n];
      var prev := UniqueEntries(tries[..n], variant);
      UniqueEntriesDistinct(tries[..n], variant);
      if !Skipped(prev, t.href, variant) && t.card.Some? {
        var entries := prev + [(t.href, t.card.value)];
        assert UniqueEntries(tries, variant) == entries;
        forall i, j | 0 <= i < j < |entries|
          ensures entries[i].0 != entries[j].0
        {
          if j == |prev| {
            assert entries[i].0 == Keys(prev)[i];
          }
        }
      }
    }
  }

  /** A try that is not skipped for its own `href` and that yields a card. */
  predicate Eligible(t: Try, variant: Variant) {
    !Contains(t.href, "/type/") && !(variant == Enhanced && t.href == []) && t.card.Some?
  }

  /** Every eligible try ends up as a key. */
  lemma {:induction false} UniqueEntriesComplete(tries: seq<Try>, variant: Variant)
    ensures forall k :: 0 <= k < |tries| && Eligible(tries[k], variant) ==> tries[k].href in Keys(UniqueEntries(tries, variant))
    decreases |tries|
  {
    if |tries| > 0 {
      var n := |tries| - 1;
      var prev := UniqueEntries(tries[..n], variant);
      var entries := UniqueEntries(tries, variant);
      UniqueEntriesComplete(tries[..n], variant);
      if entries != prev {
        assert Keys(entries) == Keys(prev) + [tries[n].href];
      }
      forall k | 0 <= k < |tries| && Eligible(tries[k], variant)
        ensures tries[k].href in Keys(entries)
      {
        if k < n {
          assert tries[k] == tries[..n][k];
        }
      }
    }
  }

  /** Try `k` is the first with its `href` that yields a card. */
  predicate FirstReadable(tries: seq<Try>, k: int)
    requires 0 <= k < |tries|
  {
    tries[k].card.Some? && forall m :: 0 <= m < k && tries[m].href == tries[k].href ==> tries[m].card.None?
  }

  /** The entry is the card of a try that is the first with its `href` to yield one. */
  predicate FromFirstReadable(tries: seq<Try>, e: (string, CardInfo)) {
    exists k :: 0 <= k < |tries| && FirstReadable(tries, k) && tries[k].href == e.0 && tries[k].card == Some(e.1)
  }

  /** Each entry holds the card of the first try with that `href` that yields one. */
  lemma {:induction false} UniqueEntriesFirstWins(tries: seq<Try>, variant: Variant)
    ensures forall i :: 0 <= i < |UniqueEntries(tries, variant)| ==> FromFirstReadable(tries, UniqueEntries(tries, variant)[i])
    decreases |tries|
  {
    if |tries| > 0 {
      var n := |tries| - 1;
      var init := tries[..n];
      var t := tries[n];
      var prev := UniqueEntries(init, variant);
      var entries := UniqueEntries(tries, variant);
      UniqueEntriesFirstWins(init, variant);
      UniqueEntriesComplete(init, variant);
      assert entries[..|prev|] == prev;
      forall i | 0 <= i < |entries|
        ensures FromFirstReadable(tries, entries[i])
      {
        if i < |prev| {
          assert entries[i] == prev[i];
          assert FromFirstReadable(init, prev[i]);
          var k :| 0 <= k < |init| && FirstReadable(init, k) && init[k].href == prev[i].0 && init[k].card == Some(prev[i].1);
          assert forall m :: 0 <= m <= k ==> tries[m] == init[m];
          assert FirstReadable(tries, k);
        } else {
          assert entries == prev + [(t.href, t.card.value)];
          assert forall m :: 0 <= m < n ==> tries[m] == init[m];
          assert forall m :: 0 <= m < n && tries[m].href == t.href ==> !Eligible(init[m], variant);
          assert FirstReadable(tries, n);
        }
      }
    }
  }

  /**
   * `unique_jobs` has distinct keys without "/type/"; each entry is the card
   * of the first anchor with that `href` whose card could be read; and every
   * anchor that is not skipped for its own `href` and whose card can be read
   * has an entry.
   */
  lemma UniqueJobsSpec(anchors: seq<Anchor>, variant: Variant)
    ensures forall i, j :: 0 <= i < j < |UniqueJobs(anchors, variant)| ==>
              UniqueJobs(anchors, variant)[i].0 != UniqueJobs(anchors, variant)[j].0
    ensures forall i :: 0 <= i < |UniqueJobs(anchors, variant)| ==> !Contains(UniqueJobs(anchors, variant)[i].0, "/type/")
    ensures |UniqueJobs(anchors, variant)| <= |anchors|
    ensures forall i :: 0 <= i < |UniqueJobs(anchors, variant)| ==>
              FromFirstReadable(Tries(anchors, variant), UniqueJobs(anchors, variant)[i])
    ensures forall k :: 0 <= k < |anchors| && Eligible(Tries(anchors, variant)[k], variant) ==>
              anchors[k].href in Keys(UniqueJobs(anchors, variant))
  {
    var tries := Tries(anchors, variant);
    UniqueEntriesDistinct(tries, variant);
    UniqueEntriesComplete(tries, variant);
    UniqueEntriesFirstWins(tries, variant);
  }

  // ---------------------------------------------------------------------
  // Job pages: the requirements text
  // ---------------------------------------------------------------------

  /** A heading-like element and the text of the next `div`/`ul`/`section` after it. */
  datatype Heading = Heading(text: string, nextSection: Option<string>)

  datatype SectionKind = KeyIndicators | JobDescription

  /** The heading introduces the section: "key indicators" or "job description". */
  predicate Announces(kind: SectionKind, text: string) {
    match kind
    case KeyIndicators => Contains(text, "شاخص") && Contains(text, "کلیدی")
    case JobDescription => Contains(text, "شرح شغل")
  }

  /** The section after the first heading announcing `kind`; later headings are never looked at. */
  function SectionAfterFirst(headings: seq<Heading>, kind: SectionKind): (s: Option<string>)
    ensures (forall i :: 0 <= i < |headings| ==> !Announces(kind, headings[i].text)) ==> s.None?
    ensures forall i :: (0 <= i < |headings| && Announces(kind, headings[i].text) &&
                         (forall m :: 0 <= m < i ==> !Announces(kind, headings[m].text))) ==> s == headings[i].nextSection
    decreases |headings|
  {
    if |headings| == 0 then None
    else if Announces(kind, headings[0].text) then headings[0].nextSection
    else
      var s := SectionAfterFirst(headings[1..], kind);
      assert forall i :: 1 <= i < |headings| ==> headings[i] == headings[1..][i - 1];
      s
  }

  /** The heading loop with its `break`. */
  method FindSection(headings: seq<Heading>, kind: SectionKind) returns (section: Option<string>)
    ensures section == SectionAfterFirst(headings, kind)
  {
    section := None;
    var i := 0;
    while i < |headings|
      invariant 0 <= i <= |headings|
      invariant SectionAfterFirst(headings[i..], kind) == SectionAfterFirst(headings, kind)
    {
      assert headings[i..][1..] == headings[i + 1..];
      if Announces(kind, headings[i].text) {
        section := headings[i].nextSection;
        return;
      }
      i := i + 1;
    }
  }

  const REQUIREMENTS_LIMIT := 5000
  const KEY_INDICATORS_HEADER := "** شاخص\U{200C}های کلیدی **\n"
  const JOB_DESCRIPTION_HEADER := "\n** شرح شغل **\n"

  /** `"\n".join(parts)` */
  function JoinLines(parts: seq<string>): string
    decreases |parts|
  {
    if |parts| == 0 then []
    else if |parts| == 1 then parts[0]
    else parts[0] + "\n" + JoinLines(parts[1..])
  }

  /** The parts collected from a page: the Enhanced scraper labels them, the basic script does not. */
  function SectionParts(headings: seq<Heading>, variant: Variant): (parts: seq<string>)
    ensures |parts| <= 2
  {
    var key := SectionAfterFirst(headings, KeyIndicators);
    var desc := SectionAfterFirst(headings, JobDescription);
    var keyHeader := if variant == Enhanced then KEY_INDICATORS_HEADER else [];
    var descHeader := if variant == Enhanced then JOB_DESCRIPTION_HEADER else [];
    (if key.Some? then [keyHeader + key.value] else []) + (if desc.Some? then [descHeader + desc.value] else [])
  }

  /**
   * The requirements of a job page (`None` when it failed to load): the
   * joined parts cut to 5000 characters, or "N/A" when there are none.
   */
  method JobPageRequirements(page: Option<seq<Heading>>, variant: Variant) returns (r: string)
    ensures page.None? ==> r == NOT_AVAILABLE
    ensures page.Some? && SectionParts(page.value, variant) == [] ==> r == NOT_AVAILABLE
    ensures page.Some? && SectionParts(page.value, variant) != [] ==>
              r == Take(JoinLines(SectionParts(page.value, variant)), REQUIREMENTS_LIMIT)
  {
    r := NOT_AVAILABLE;
    if page.None? {
      return;
    }
    var combined: seq<string> := [];
    var key := FindSection(page.value, KeyIndicators);
    if key.Some? {
      combined := combined + [(if variant == Enhanced then KEY_INDICATORS_HEADER else []) + key.value];
    }
    var desc := FindSection(page.value, JobDescription);
    if desc.Some? {
      combined := combined + [(if variant == Enhanced then JOB_DESCRIPTION_HEADER else []) + desc.value];
    }
    if combined != [] {
      r := Take(JoinLines(combined), REQUIREMENTS_LIMIT);
    }
  }

  /**
   * The requirements never exceed 5000 characters, and in the Enhanced
   * scraper a found key-indicators section comes first, under its header.
   */
  lemma RequirementsShape(headings: seq<Heading>, variant: Variant)
    ensures |Take(JoinLines(SectionParts(headings, variant)), REQUIREMENTS_LIMIT)| <= REQUIREMENTS_LIMIT
    ensures variant == Enhanced && SectionAfterFirst(headings, KeyIndicators).Some? ==>
              StartsWith(Take(JoinLines(SectionParts(headings, variant)), REQUIREMENTS_LIMIT), KEY_INDICATORS_HEADER)
  {
    var parts := SectionParts(headings, variant);
    var joined := JoinLines(parts);
    TakeBound(joined, REQUIREMENTS_LIMIT);
    if variant == Enhanced && SectionAfterFirst(headings, KeyIndicators).Some? {
      var first := parts[0];
      assert StartsWith(first, KEY_INDICATORS_HEADER);
      assert StartsWith(joined, first);
      assert joined[..|KEY_INDICATORS_HEADER|] == first[..|KEY_INDICATORS_HEADER|];
      var t := Take(joined, REQUIREMENTS_LIMIT);
      assert |KEY_INDICATORS_HEADER| <= |t|;
      assert t[..|KEY_INDICATORS_HEADER|] == joined[..|KEY_INDICATORS_HEADER|];
    }
  }

  // ---------------------------------------------------------------------
  // Detailing the first cards of a keyword
  // ---------------------------------------------------------------------

  /** How many cards of one keyword are opened: ten, or `max_per_keyword` in the basic script. */
  function DetailLimit(variant: Variant, maxPerKeyword: nat): nat {
    if variant == Enhanced then 10 else maxPerKeyword
  }

  /** The record built from a card and the requirements read from its page. */
  function JobVisionRecord(info: CardInfo, requirements: string, now: string): (job: JobRecord)
    ensures job.link == info.link && job.source == "JobVision"
  {
    JobRecord(now, info.title, info.company, info.location, requirements, NEGOTIABLE,
              info.contractType, STANDARD_HOURS, info.link, "JobVision")
  }

  /**
   * The records for the first `limit` cards, each with the requirements of
   * its page and the clock reading taken when it was built.
   */
  function DetailedRecords(entries: seq<(string, CardInfo)>, limit: nat, requirements: seq<string>, stamps: seq<string>): (r: seq<Option<JobRecord>>)
    requires |requirements| == |entries| && |stamps| == |entries|
    ensures |r| == Min(limit, |entries|)
    ensures forall i :: 0 <= i < |r| ==> r[i] == Some(JobVisionRecord(entries[i].1, requirements[i], stamps[i]))
  {
    seq(Min(limit, |entries|), i requires 0 <= i < Min(limit, |entries|) => Some(JobVisionRecord(entries[i].1, requirements[i], stamps[i])))
  }

  /**
   * One keyword adds at most `limit` records to the job list, keeps it free
   * of duplicate links, and afterwards holds the link of every detailed card.
   */
  lemma KeywordRecordsBounded(jobs: seq<JobRecord>, entries: seq<(string, CardInfo)>, limit: nat, requirements: seq<string>, stamps: seq<string>)
    requires |requirements| == |entries| && |stamps| == |entries|
    requires DistinctLinks(jobs)
    ensures DistinctLinks(AddAllNewLinks(jobs, DetailedRecords(entries, limit, requirements, stamps)))
    ensures |AddAllNewLinks(jobs, DetailedRecords(entries, limit, requirements, stamps))| <= |jobs| + limit
    ensures forall i :: 0 <= i < Min(limit, |entries|) ==>
              entries[i].1.link in Links(AddAllNewLinks(jobs, DetailedRecords(entries, limit, requirements, stamps)))
  {
    var records := DetailedRecords(entries, limit, requirements, stamps);
    AddAllNewLinksSpec(jobs, records);
    forall i | 0 <= i < Min(limit, |entries|)
      ensures entries[i].1.link in Links(AddAllNewLinks(jobs, records))
    {
      assert records[i].Some? && records[i].value.link == entries[i].1.link;
    }
  }
}
