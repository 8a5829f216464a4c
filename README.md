# Job-listing scrapers: a Dafny model

This project models the logic of a set of Python scrapers. They collect
machine-learning job listings from two Iranian job boards, Jobinja and
JobVision, and store them in a Google Sheet. A small analysis script then
normalises the requirement texts and counts skills.

The browser, the image library, HTTP and the spreadsheet are foreign code.
Each of them is an oracle: a method whose answer the model does not
constrain beyond its type. Ghost counters record what the oracle was asked
to do. The logic around the oracles is modelled as the source wrote it:

- the bounded-retry login controllers with their captcha solvers, as
  classes with loops;
- the slider-drag arithmetic: integer step partition, image-to-DOM
  scaling, and equal real steps;
- the listing-record logic shared by the scraper variants: job-id
  extraction, first-seen de-duplication, link construction, title
  cleaning, meta classification, truncation and the "new rows" filter of
  the sheet uploaders;
- the average-hash captcha memory with its Hamming nearest match;
- skill-text normalisation and the frequency filters of the analysis
  script.

Modules:

| file | module | source |
|---|---|---|
| text.dfy | `Text` | the string operations the scrapers use (`strip`, `split`, slicing, `lower`, `replace`) |
| motion.dfy | `Motion` | drag partition and gap scaling of Jobvision_scraper.py; equal steps of gitignore/final_scraper.py |
| listing.dfy | `Listing` | job records, de-duplication by link, the sheet uploaders' new-row filters |
| jobinja_cards.dfy | `JobinjaCards` | Jobinja card parsing and job-page details (three scraper variants) |
| jobvision_cards.dfy | `JobVisionCards` | JobVision card extraction, `unique_jobs`, requirements (Enhanced and basic scrapers) |
| jobvision_scraper.dfy | `JobVision` | Jobvision_scraper.py: login controller, solver, link filter, scrape loop |
| final_scraper.dfy | `FinalScraper` | gitignore/final_scraper.py: solver loop, login sequence, scrape |
| captcha_memory.dfy | `CaptchaMemory` | gitignore/memory_saver.py |
| skill_text.dfy | `SkillText` | gitignore/job_model.py |

## Model

| member | source | states |
|---|---|---|
| Text.TakeBound | gitignore/Enhanced_Job_Scraper_with_AntiDetection.py:498 | `s[:n]` is a prefix of `s` of length `min(n, len(s))` |
| Text.StripShape | gitignore/Enhanced_Job_Scraper_with_AntiDetection.py:430 | `strip()` never lengthens its argument and leaves no whitespace at either end |
| Text.TrimLeftShape | gitignore/Enhanced_Job_Scraper_with_AntiDetection.py:430 | left stripping returns a suffix of its argument that starts with a non-space |
| Text.TrimRightShape | gitignore/Enhanced_Job_Scraper_with_AntiDetection.py:430 | right stripping returns a prefix of its argument that ends with a non-space |
| Text.BeforeFirst | Jobvision_scraper.py:470 | `split('?')[0]` is the longest prefix without `?`; it is followed by `?` when one occurs, and is the whole string otherwise |
| Text.Lower | gitignore/job_model.py:78 | `lower()` keeps the length and maps each character through the ASCII lower-case map |
| Motion.RandInt | Jobvision_scraper.py:324 | `random.randint(lo, hi)` lies in the closed range; gitignore/final_scraper.py:145 draws the step count the same way |
| Motion.RandUniform | gitignore/final_scraper.py:148 | `random.uniform(lo, hi)` lies in the closed range |
| Motion.GapToDom | Jobvision_scraper.py:393-398 | the result is the truncation of `(max_loc_x + piece_width // 2) * dom_width / bg_width`, stated as the floor inequality on naturals |
| Motion.GapToDomNative | Jobvision_scraper.py:393-398 | when the image is shown at its native width the result is the unscaled centre `max_loc_x + piece_width // 2` |
| Motion.GapToDomMonotone | Jobvision_scraper.py:393-398 | a match further right never lands further left in DOM pixels |
| Motion.MoveDistance | Jobvision_scraper.py:317 | `int(max(0, target_x - 10))`: zero or ten short of the target, and never less than `target_x - 10` |
| Motion.StepCount | Jobvision_scraper.py:319 | `max(6, int(move_x / 10))`: at least six, at least `move_x // 10`, and equal to one of them |
| Motion.PartitionStep | Jobvision_scraper.py:321-332 | one loop pass: the step `remaining // k` is at most `remaining`, and the rest of the partition continues from `remaining - step` |
| Motion.PartitionLength | Jobvision_scraper.py:321 | the loop emits exactly `steps` nominal steps |
| Motion.PartitionSum | Jobvision_scraper.py:320-332 | the nominal steps add up to the whole distance, so `remaining` ends at 0 |
| Motion.NextStepNotSmaller | Jobvision_scraper.py:322 | the step after `remaining // k` is never smaller than it |
| Motion.PartitionNondecreasing | Jobvision_scraper.py:321-332 | the nominal steps never shrink along the drag |
| Motion.NominalStepsShape | Jobvision_scraper.py:317-332 | at least six nominal steps, each non-negative and no smaller than the one before, adding up to `max(0, target_x - 10)` |
| Motion.EqualStepsSum | gitignore/final_scraper.py:144-149 | `steps` moves of `move_distance / steps` add up exactly to `move_distance` |
| Motion.ConstantSum | gitignore/final_scraper.py:146-148 | `n` moves of the same size `c` cover `n * c` |
| Listing.Links | gitignore/Enhanced_Job_Scraper_with_AntiDetection.py:405 | the links of the stored records, one per record, in order |
| Listing.AddIfNewLinkKeepsDistinct | gitignore/Enhanced_Job_Scraper_with_AntiDetection.py:405-406 | appending a parsed record only when its link is new keeps the links distinct, only appends, adds at most one record, and afterwards the parsed link is stored |
| Listing.AddAllNewLinksSpec | Jobinja_scraper.py:127-131 | over a page of cards the job list stays free of duplicate links, keeps what it held, and afterwards holds the link of every parsed card |
| Listing.JobList.constructor | Jobinja_scraper.py:113-131 | the scraper starts with an empty job list |
| Listing.JobList.AddIfNew | scraper/fixed_scraper.py:79-80 | the list gains the record exactly when it parsed and its link is not stored; otherwise nothing changes |
| Listing.JobList.AddCards | scraper/fixed_scraper.py:76-84 | the card loop leaves the list equal to the de-duplicated append of all parsed cards, in page order |
| Listing.SheetRow | gitignore/Enhanced_Job_Scraper_with_AntiDetection.py:746-755 | a record becomes ten cells, and cell 9 (index 8) is its link |
| Listing.SheetRows | Jobinja_scraper.py:301-314 | one row per appended record, in order |
| Listing.Column9 | Jobinja_scraper.py:295 | column 9 has one cell per sheet row |
| Listing.NewJobsSpec | gitignore/Enhanced_Job_Scraper_with_AntiDetection.py:738 | the filter keeps exactly the records whose link is not stored, and the dropped ones are the "skipped" count |
| Listing.NewJobsAllNew | gitignore/scraper.py:270 | with no stored link the filter keeps the whole list, in order |
| Listing.NewJobsNoneNew | gitignore/scraper.py:270 | when every link is stored the filter keeps nothing |
| Listing.LinksInRowsIgnoresHeader | gitignore/Enhanced_Job_Scraper_with_AntiDetection.py:731-734 | the header row and rows with at most eight cells never contribute a stored link |
| Listing.LinksInRowsMember | gitignore/scraper.py:268 | a link counts as stored exactly when a data row with more than eight cells holds it at index 8 |
| Listing.ColumnAgreesWithRows | Jobinja_scraper.py:295 | reading column 9 and reading whole rows agree on every non-empty link |
| Listing.LinksAfterAppend | Jobinja_scraper.py:301-314 | appending the rows of some records adds exactly their links to the stored set |
| Listing.SavePlanEnhanced | gitignore/Enhanced_Job_Scraper_with_AntiDetection.py:729-742 | a failed read counts as an empty sheet; the upload holds exactly the records with unstored links; nothing is sent when there are none |
| Listing.SavePlanColumn | scraper/fixed_scraper.py:247-268 | the upload holds exactly the records whose link is not among the column-9 values below the header |
| Listing.SkippedCount | Jobinja_scraper.py:299-317 | the reported "skipped" figure is the number of records whose link is already stored |
| Listing.SavePlanBasic | gitignore/scraper.py:244-289 | an empty list returns at once; a failed read falls back to the CSV with the whole list; otherwise exactly the records with unstored links are uploaded |
| Listing.SaveIsIdempotent | gitignore/Enhanced_Job_Scraper_with_AntiDetection.py:729-755 | saving a second time right after an upload sends nothing |
| JobinjaCards.RemoveKeepsChars | gitignore/Enhanced_Job_Scraper_with_AntiDetection.py:430 | the title regex only removes characters, it never adds any |
| JobinjaCards.KeepFirst | gitignore/Enhanced_Job_Scraper_with_AntiDetection.py:430 | a character that opens no date group is kept |
| JobinjaCards.PassThrough | gitignore/Enhanced_Job_Scraper_with_AntiDetection.py:430 | a bracket group whose interior mentions no day passes through unchanged |
| JobinjaCards.OpensDayGroupOf | gitignore/Enhanced_Job_Scraper_with_AntiDetection.py:430 | a `(`…`)` group is removed exactly when its interior contains "روز"; this covers the literal alternatives "(امروز)" and "(دیروز)" |
| JobinjaCards.NotOpensDayGroup | gitignore/Enhanced_Job_Scraper_with_AntiDetection.py:430 | a `(` whose group mentions no day opens nothing to remove |
| JobinjaCards.RemoveDayGroupsComplete | gitignore/Enhanced_Job_Scraper_with_AntiDetection.py:430 | after the substitution no date group is left |
| JobinjaCards.NoDayGroupSlice | gitignore/Enhanced_Job_Scraper_with_AntiDetection.py:430 | cutting characters off either end cannot create a date group |
| JobinjaCards.StripIsSlice | gitignore/Enhanced_Job_Scraper_with_AntiDetection.py:430 | `strip()` returns a contiguous slice of its argument |
| JobinjaCards.CleanTitleSpec | Jobinja_scraper.py:160 | the stored title has no date group left and no surrounding whitespace |
| JobinjaCards.ContractPick | gitignore/Enhanced_Job_Scraper_with_AntiDetection.py:441-448 | a meta item names a contract type exactly when it contains one of the six keywords; full-time wins first, and the value is one of the four canonical names |
| JobinjaCards.LocationPick | gitignore/Enhanced_Job_Scraper_with_AntiDetection.py:449-450 | an item becomes the location exactly when it names no contract type and contains "تهران" or "،" |
| JobinjaCards.LastPickNone | Jobinja_scraper.py:167-179 | with no matching item the field keeps its "N/A" default |
| JobinjaCards.LastPickLast | Jobinja_scraper.py:167-179 | later items overwrite earlier ones: the last matching item decides |
| JobinjaCards.LastPickValue | Jobinja_scraper.py:167-179 | the field is the default or the value some item yields |
| JobinjaCards.ClassifyMeta | scraper/fixed_scraper.py:118-135 | the meta loop computes the location and contract type of the specification `MetaOf` |
| JobinjaCards.MetaOfSpec | gitignore/Enhanced_Job_Scraper_with_AntiDetection.py:435-450 | contract keywords take precedence over location; the last matching item decides each field; both default to "N/A" |
| JobinjaCards.JobinjaLink | Jobinja_scraper.py:155-157 | a link starting with `/` gets "https://jobinja.ir" in front; any other link is unchanged |
| JobinjaCards.JobinjaLinkIdempotent | Jobinja_scraper.py:155-157 | making a link absolute twice changes nothing the second time |
| JobinjaCards.FirstDescription | Jobinja_scraper.py:246-249 | the description is the text of the first candidate class present on the page, and none exactly when no candidate is present |
| JobinjaCards.Requirements | gitignore/Enhanced_Job_Scraper_with_AntiDetection.py:496-498 | the requirements are "N/A" without a description, else a prefix of it of at most 3000 characters |
| JobinjaCards.FirstBoxDetails | scraper/fixed_scraper.py:157-209 | salary from the first info box only, description from the first of the candidate classes cut to 3000, hours from the last box labelled "ساعت کاری"; a failed page keeps the three defaults |
| JobinjaCards.JobinjaSalary | Jobinja_scraper.py:224-240 | the salary differs from the info-box choice only when that is still "توافقی" and the meta text mentions "تومان" or "حقوق"; then it is that text cut to 200 characters |
| JobinjaCards.JobinjaSalaryBound | Jobinja_scraper.py:236-240 | the fallback salary is never longer than 200 characters |
| JobinjaCards.JobinjaDetails | Jobinja_scraper.py:200-263 | an empty URL or a failed page gives the three defaults; otherwise description, salary and hours as the info-box and fallback rules say |
| JobinjaCards.CardRecord | gitignore/Enhanced_Job_Scraper_with_AntiDetection.py:420-465 | a card without a title link gives no record; otherwise the record has the cleaned title, the given link and source "Jobinja" |
| JobinjaCards.ParseCardAsRead | gitignore/Enhanced_Job_Scraper_with_AntiDetection.py:417-468 | the link is kept exactly as read; the title is the cleaned card title, with no date group; the company is the card's or "N/A"; the date is the clock reading passed in; location and contract type follow `MetaOf`; a failed page gives the defaults; a loaded page gives the first box's value as salary (else "توافقی"), the first matching description cut to 3000 characters, and the last "working hours" box |
| JobinjaCards.ParseCardAbsolute | Jobinja_scraper.py:143-198 | title, company and date as above; the link is made absolute before the page is read; an empty link or a failed page gives the defaults; otherwise the salary is the last wage or pay box (with the meta-text fallback), the requirements come from the four classes then the description id, and the hours from the last "working hours" box |
| JobinjaCards.ScrollPage | Jobinja_scraper.py:265-274 | one to three scrolls; it stops early exactly at the first scroll that leaves the height unchanged |
| JobVisionCards.ContainerOf | gitignore/Enhanced_Job_Scraper_with_AntiDetection.py:557-564 | there is a container exactly when the anchor has a parent |
| JobVisionCards.ClimbContainer | gitignore/Enhanced_Job_Scraper_with_AntiDetection.py:557-562 | the climb goes at most five parents up, never past the root, and stops early only at the root |
| JobVisionCards.StripStatusPrefix | gitignore/Enhanced_Job_Scraper_with_AntiDetection.py:618 | the result is the title itself or the title with one listed label cut off its front; a title starting with no label is unchanged |
| JobVisionCards.StripStatusPrefixFirst | gitignore/scraper.py:171 | the label cut off is the first one in list order that the title starts with |
| JobVisionCards.StripStatusPrefixOnce | gitignore/Enhanced_Job_Scraper_with_AntiDetection.py:618 | only one label goes: "فوریفوری" keeps its second "فوری" |
| JobVisionCards.RawTitle | gitignore/scraper.py:158-168 | the title element's text when it has at least ten characters; otherwise the anchor text when there is one |
| JobVisionCards.EmptyHrefTestDead | gitignore/Enhanced_Job_Scraper_with_AntiDetection.py:543-556 | an anchor the page filter selects has a non-empty `href`, so the Enhanced scraper's `if href` test never fires and both variants pass over the same anchors |
| JobVisionCards.JobVisionLink | gitignore/Enhanced_Job_Scraper_with_AntiDetection.py:637 | an href starting with "http" is kept; any other gets "https://jobvision.ir" in front |
| JobVisionCards.JobVisionLinkIdempotent | gitignore/scraper.py:186 | completing a link twice changes nothing the second time |
| JobVisionCards.ExtractCardInfo | gitignore/Enhanced_Job_Scraper_with_AntiDetection.py:602-651 | a card is returned exactly when its cleaned title is longer than five characters, with that title and the completed link; the contract type is the span's text in the Enhanced scraper and always "N/A" in the basic one |
| JobVisionCards.CardTitleTrimmed | gitignore/scraper.py:170-171 | a kept title never starts or ends with whitespace |
| JobVisionCards.AddAnchor | gitignore/scraper.py:107-122 | one pass of the anchor loop: skip, or climb, read the card and store it under its href when it parses |
| JobVisionCards.CollectUniqueJobs | gitignore/Enhanced_Job_Scraper_with_AntiDetection.py:549-567 | the loop computes `unique_jobs` as the specification `UniqueJobs` defines it |
| JobVisionCards.UniqueEntriesDistinct | gitignore/Enhanced_Job_Scraper_with_AntiDetection.py:553-567 | keys are distinct and free of "/type/", and there are no more entries than anchors |
| JobVisionCards.UniqueEntriesComplete | gitignore/scraper.py:106-122 | every anchor that is not skipped by its own href and yields a card ends up as a key |
| JobVisionCards.UniqueEntriesFirstWins | gitignore/Enhanced_Job_Scraper_with_AntiDetection.py:556-567 | each entry holds the card of the first anchor with that href whose card could be read |
| JobVisionCards.UniqueJobsSpec | gitignore/Enhanced_Job_Scraper_with_AntiDetection.py:549-567 | `unique_jobs`: distinct keys without "/type/", first readable card wins, every eligible anchor present, at most one entry per anchor |
| JobVisionCards.SectionAfterFirst | gitignore/Enhanced_Job_Scraper_with_AntiDetection.py:667-671 | the section after the first announcing heading; none when no heading announces it |
| JobVisionCards.FindSection | gitignore/scraper.py:214-228 | the heading loop with its `break` computes `SectionAfterFirst` |
| JobVisionCards.SectionParts | gitignore/scraper.py:210-228 | at most two sections are joined |
| JobVisionCards.JobPageRequirements | gitignore/Enhanced_Job_Scraper_with_AntiDetection.py:653-695 | a failed page or a page without sections gives "N/A"; otherwise the joined parts cut to 5000 characters |
| JobVisionCards.RequirementsShape | gitignore/Enhanced_Job_Scraper_with_AntiDetection.py:673-690 | the requirements never exceed 5000 characters, and in the Enhanced scraper a found key-indicators section comes first under its header |
| JobVisionCards.JobVisionRecord | gitignore/Enhanced_Job_Scraper_with_AntiDetection.py:577-588 | the record keeps the card's link and has source "JobVision" |
| JobVisionCards.DetailedRecords | gitignore/scraper.py:126-141 | records are built for the first `max_per_keyword` cards only, each from its card, its page and the clock reading taken for it |
| JobVisionCards.KeywordRecordsBounded | gitignore/Enhanced_Job_Scraper_with_AntiDetection.py:571-591 | one keyword adds at most the detail limit of records, keeps the list free of duplicate links, and afterwards holds every detailed card's link |
| JobVision.DigitRun | Jobvision_scraper.py:703 | the greedy `\d+`: a prefix of digits followed by a non-digit or the end |
| JobVision.FirstJobId | Jobvision_scraper.py:703 | a found id is a non-empty string of digits |
| JobVision.FirstJobIdLeftmost | Jobvision_scraper.py:703 | the id is the digit run after the leftmost "/jobs/<digit>" match; when no id is found, no position matches |
| JobVision.ExtractJobId | Jobvision_scraper.py:702-704 | without a match the URL comes back unchanged; with one the result is a digit string shorter than the URL |
| JobVision.FirstJobIdShorter | Jobvision_scraper.py:703 | a found id is shorter than the URL it came from |
| JobVision.NoSlashNoMatch | Jobvision_scraper.py:703 | a string without `/` holds no match |
| JobVision.ExtractJobIdIdempotent | Jobvision_scraper.py:702-704 | extracting an id twice gives the same as once |
| JobVision.LoginPageNotLoggedIn | Jobvision_scraper.py:411 | the account login page itself never counts as logged in |
| JobVision.Candidate | Jobvision_scraper.py:467-475 | a kept href is its own prefix up to `?`, holds "/jobs/" and is not the keyword search page; an href that is already clean is kept as it is |
| JobVision.KeywordPageContains | Jobvision_scraper.py:474 | the `'keyword' in href` half of the test is implied by the other half |
| JobVision.SelectLinksDistinct | Jobvision_scraper.py:476-479 | kept links have pairwise distinct ids, none of them already scraped, all from the anchors, and no more than the anchors |
| JobVision.SelectLinksComplete | Jobvision_scraper.py:476-479 | every candidate whose id was not scraped before has its id among the kept links |
| JobVision.SelectLinksFirstWins | Jobvision_scraper.py:477-479 | each kept link is the first candidate carrying its id, so first-seen order is kept |
| JobVision.JobLinksSpec | Jobvision_scraper.py:462-481 | the link filter: clean, "/jobs/" links; distinct new ids; first seen wins; every new id present |
| JobVision.DistinctIdsDistinctLinks | Jobvision_scraper.py:495-497 | records with distinct ids have distinct links |
| JobVision.SaveNewId | Jobvision_scraper.py:495-497 | saving a record with a new id keeps the ids distinct and adds exactly that id to `scraped_links` |
| JobVision.ExtendsJobIds | Jobvision_scraper.py:497 | appending records never loses a scraped id |
| JobVision.SkippedIdSeen | Jobvision_scraper.py:499-501 | a skipped record repeats the id of an earlier link or one scraped before the loop |
| JobVision.NewRecordsClean | Jobvision_scraper.py:485-506 | the records a keyword adds come from clean links and carry ids that were new at its start |
| JobVision.Driver.ProbeCaptcha | Jobvision_scraper.py:209-222 | `check_captcha_exists` answers present or absent and changes no counter |
| JobVision.Driver.FindImage | Jobvision_scraper.py:256-283 | a found captcha image has a non-empty `src` |
| JobVision.Driver.Download | Jobvision_scraper.py:362-370 | a decoded image has a positive width; failure is `None` |
| JobVision.Driver.ClickAndHold | Jobvision_scraper.py:308-313 | pressing on the slider, with its fallback; only a success counts as a hold |
| JobVision.Driver.Refresh | Jobvision_scraper.py:125 | every refresh is counted, and so is every failed one |
| JobVision.Driver.ReenterEmail | Jobvision_scraper.py:128-148 | re-entering the email after a refresh is counted as done or failed |
| JobVision.Driver.EnterPassword | Jobvision_scraper.py:156-163 | every password step is counted, and so is a failed one |
| JobVision.Driver.ClickLogin | Jobvision_scraper.py:190-207 | `_try_click_login_button` never raises and is counted once per call |
| JobVision.Driver.CurrentUrl | Jobvision_scraper.py:409 | reading the URL is recorded; a read showing a logged-in page is counted |
| JobVision.Driver.ScrapeJobDetails | Jobvision_scraper.py:516-700 | a scraped record's link is the page URL |
| JobVision.JobVisionScraper.constructor | Jobvision_scraper.py:34-36 | the scraper starts with no jobs, no scraped ids and the given attempt budgets |
| JobVision.JobVisionScraper.IsLoggedIn | Jobvision_scraper.py:406-421 | true exactly when the URL read shows a page outside "account.jobvision.ir"; a failed read gives false |
| JobVision.JobVisionScraper.DragStep | Jobvision_scraper.py:322-332 | the nominal step is `remaining // k`; the sent offset adds a jitter in [-2, 3]; nothing but the move is recorded |
| JobVision.JobVisionScraper.DragSlider | Jobvision_scraper.py:317-333 | the nominal steps are the integer partition of the distance, and each sent offset is its step plus jitter in [-2, 3]; jitter never changes `remaining` |
| JobVision.JobVisionScraper.SolveArcaptchaAsWritten | Jobvision_scraper.py:246-360 | as written the solver never succeeds: the two-argument call to the gap locator raises and the `except` returns false |
| JobVision.JobVisionScraper.LocateGap | Jobvision_scraper.py:285-291 | when a gap is found, it is `GapToDom` of the template-match x, the piece width and the element/image widths read in this run, and the match (`TemplateMatched(x)`) is the last driver step; the image lookups, downloads and gap location count as one solver run and move nothing |
| JobVision.JobVisionScraper.DragAndRelease | Jobvision_scraper.py:317-353 | the drag follows `NominalSteps(target_x)` with jitter, then one nudge of 3 to 8 pixels; the last action is the captcha probe |
| JobVision.JobVisionScraper.SolveArcaptcha | Jobvision_scraper.py:246-360 | success exactly when the slider was held and the final probe found no captcha, and the `solvedRuns` counter rises by one exactly then; without a hold nothing moves; with one the moves are the drag of `NominalSteps` plus the nudge, aimed at the gap scaled from this run's own template match |
| JobVision.JobVisionScraper.TrySolveCaptchaWithRetries | Jobvision_scraper.py:224-241 | at most `captcha_attempts` solver runs; every run before the last failed; true exactly when the last run succeeded, and `solvedRuns` rises by one exactly then; false only after all attempts |
| JobVision.JobVisionScraper.ClearCaptcha | Jobvision_scraper.py:120-153 | the first new driver step is the captcha probe `CaptchaProbed(seen)`; no captcha means no solver run; solved implies a captcha was seen and `solvedRuns` rose by one; a seen but unsolved captcha means exactly `captcha_attempts` runs and one refresh; a failed refresh raises; a failed email re-entry ends the cycle without the password |
| JobVision.JobVisionScraper.RefreshCycle | Jobvision_scraper.py:118-177 | one cycle: its first new step is `CaptchaProbed(seen)`; solved implies seen and `solvedRuns` +1; seen and unsolved means exactly `captcha_attempts` runs; the password step runs exactly when the captcha was absent, solved or the email was re-entered; the click follows a password step that did not fail |
| JobVision.JobVisionScraper.LoginAttempt | Jobvision_scraper.py:83-186 | one attempt loads the page once, runs the solver at most `refresh_cycles × captcha_attempts` times, and succeeds only right after a logged-in URL read |
| JobVision.JobVisionScraper.LoginToJobvision | Jobvision_scraper.py:77-188 | at most `max_login_attempts × refresh_cycles × captcha_attempts` solver runs; true only right after a logged-in URL read; otherwise exactly `max_login_attempts` attempts before the raise |
| JobVision.JobVisionScraper.SelectJobLinks | Jobvision_scraper.py:462-481 | the anchor loop computes the specification `SelectLinks` of the cleaned candidates |
| JobVision.JobVisionScraper.ProcessJobLinks | Jobvision_scraper.py:485-506 | processed, skipped and errors add up to the links visited; each new record comes from a visited link with a new id; with fresh distinct ids nothing is skipped |
| JobVision.JobVisionScraper.ScrapeJobvision | Jobvision_scraper.py:426-511 | without a logged-in page nothing changes; otherwise the list only grows, by at most `max_jobs_per_keyword` per keyword, with clean links whose ids were not scraped before |
| FinalScraper.GapPositionLeftOfCentre | gitignore/final_scraper.py:224-233 | this locator returns the left x of the match, half a piece width short of the centred, unscaled target of the other solver |
| FinalScraper.DragCoversGap | gitignore/final_scraper.py:144-149 | between 15 and 25 moves, each of size `move_distance / steps`, together covering the distance |
| FinalScraper.AnchorRecord | gitignore/final_scraper.py:255-274 | a record carries the anchor's text, the completed link, the date and "N/A" in every other field |
| FinalScraper.KeywordRecordsSpec | gitignore/final_scraper.py:254-274 | one record per anchor with a non-empty title, each with an absolute link and the clock reading taken at its own anchor |
| FinalScraper.KeywordRecordsComplete | gitignore/final_scraper.py:254-274 | every anchor with a title shows up as a record, stamped with its own clock reading |
| FinalScraper.RepeatedAnchorKeptTwice | gitignore/final_scraper.py:263-264 | there is no de-duplication: the same anchor twice gives two records with the same title and link, whatever the clock read each time |
| FinalScraper.Browser.EnterCaptchaFrame | gitignore/final_scraper.py:111-117 | every solver run waits for the captcha frame once; success puts the browser inside it |
| FinalScraper.Browser.MoveBy | gitignore/final_scraper.py:148 | a performed move is recorded with its horizontal size |
| FinalScraper.Browser.SwitchToDefault | gitignore/final_scraper.py:155 | a successful switch leaves the frame |
| FinalScraper.Browser.FindRefreshButton | gitignore/final_scraper.py:188-190 | every recovery starts with the refresh-button lookup |
| FinalScraper.Browser.TypePassword | gitignore/final_scraper.py:70-74 | every password entry is counted |
| FinalScraper.FinalJobScraper.constructor | gitignore/final_scraper.py:27-45 | the scraper starts with no jobs on the given browser |
| FinalScraper.FinalJobScraper.Drag | gitignore/final_scraper.py:146-149 | every sent move has the same size `move_distance / steps`; a completed drag sent all of them |
| FinalScraper.FinalJobScraper.SolveArcaptcha | gitignore/final_scraper.py:104-173 | true exactly when the last browser action was a Password-field wait that found it, and the `solves` counter (bumped only by such a wait) rises by one exactly then; on success the slider moved in 15 to 25 equal steps to the unscaled match x; a failure that stays in the frame tried to switch back |
| FinalScraper.FinalJobScraper.RecoverFrame | gitignore/final_scraper.py:167-173 | the `except` reports failure after trying to return to the page |
| FinalScraper.FinalJobScraper.Recover | gitignore/final_scraper.py:186-213 | every call counts as exactly one recovery, waits for no frame and types no password; the browser actions it appends follow one of the four paths of `RecoveryPath` (refresh click; or reload, wait for the email field, continue click), and it raises exactly as that path says |
| FinalScraper.RecoveryRaisesOnFailure | gitignore/final_scraper.py:186-213 | a recovery raises exactly when the refresh click, the reload or the continue click failed; the page is reloaded exactly when the refresh button was missing |
| FinalScraper.FinalJobScraper.SolveArcaptchaLoop | gitignore/final_scraper.py:176-215 | at most `max_attempts` runs, returning at the first success; `solves` rises by one exactly when the outcome is solved, so no earlier run succeeded and an exhausted or raising loop saw none; one recovery after every failed run, the last one too; exhaustion means exactly `max_attempts` runs |
| FinalScraper.FinalJobScraper.LoginToJobvision | gitignore/final_scraper.py:48-101 | completed exactly when the loop returned solved and the last four actions were password typed, login button found, login clicked and the URL wait; `solves` rises by one exactly when the loop solved; at most five solver runs; the password is typed at most once, and only after a solved loop |
| FinalScraper.FinalJobScraper.AddKeywordRecords | gitignore/final_scraper.py:254-274 | the anchor loop appends exactly `KeywordRecords`, with one clock reading per appended record |
| FinalScraper.FinalJobScraper.ScrapeJobvision | gitignore/final_scraper.py:236-274 | the job list grows by the records of every keyword, in keyword order, each record stamped when it was appended |
| CaptchaMemory.AboveMean | gitignore/memory_saver.py:68-69 | a pixel is above the mean exactly when `n * pixel > sum` |
| CaptchaMemory.ComputeImageHash | gitignore/memory_saver.py:65-72 | 32×32 = 1024 characters, each '0' or '1', and '1' exactly where the pixel is strictly above the mean |
| CaptchaMemory.UniformGridHashesToZeros | gitignore/memory_saver.py:68-69 | a uniform grid hashes to all '0' |
| CaptchaMemory.HashNeverAllOnes | gitignore/memory_saver.py:68-69 | no grid hashes to all '1' |
| CaptchaMemory.HammingDistance | gitignore/memory_saver.py:95 | the mismatch count over `zip` is at most the shorter length |
| CaptchaMemory.HammingSymmetric | gitignore/memory_saver.py:95 | the distance is symmetric |
| CaptchaMemory.HammingZeroIffEqual | gitignore/memory_saver.py:95 | equal-length strings are at distance zero exactly when they are equal |
| CaptchaMemory.PutLength | gitignore/memory_saver.py:204 | `solutions[h] = s` grows the table by one exactly when `h` is new |
| CaptchaMemory.PutKeeps | gitignore/memory_saver.py:204 | after the assignment the key holds the new value and every other entry is kept |
| CaptchaMemory.PutOnly | gitignore/memory_saver.py:204 | the assignment adds nothing but the new pair |
| CaptchaMemory.PutDistinct | gitignore/memory_saver.py:204 | the table's keys stay distinct |
| CaptchaMemory.PutSpec | gitignore/memory_saver.py:204 | the dictionary assignment: new value under the key, other entries untouched, one more entry exactly for a new key, keys distinct |
| CaptchaMemory.FirstNearestUnique | gitignore/memory_saver.py:93-99 | there is only one first entry at the smallest distance |
| CaptchaMemory.Nearest | gitignore/memory_saver.py:90-99 | the strict `<` scan ends at the first entry with the smallest distance |
| CaptchaMemory.SimilarityThreshold | gitignore/memory_saver.py:102-104 | `1 - d / 1024 > 0.85` exactly when `20 * d < 3 * 1024` |
| CaptchaMemory.FindMatchingSolution | gitignore/memory_saver.py:86-107 | the first nearest entry and its similarity when that exceeds 0.85; otherwise `(None, 0)`; an empty table always gives `(None, 0)` |
| CaptchaMemory.CaptchaPage.CanvasPixels | gitignore/memory_saver.py:116 | a screenshot yields the 32×32 grid or nothing; a grid is appended to the page's `grids` record, a miss raises the `failures` counter |
| CaptchaMemory.HashedRounds | gitignore/memory_saver.py:196-223 | the number of rounds that produced a hash, never more than the rounds |
| CaptchaMemory.RecordManualSolution | gitignore/memory_saver.py:109-142 | raised exactly when the screenshot failed (`failures` +1); otherwise the captured 32×32 grid is appended to `grids`; either both results are `None`, or the hash is `ComputeImageHash` of that grid, the solution carries it with method "manual", and `handSolved` rose by one |
| CaptchaMemory.AutoSolveCaptcha | gitignore/memory_saver.py:144-165 | it returns false on every path |
| CaptchaMemory.RecordStepSpec | gitignore/memory_saver.py:201-206 | the table gains the pair only when both results are present, keeps its keys distinct and grows by at most one |
| CaptchaMemory.RecordSession | gitignore/memory_saver.py:196-223 | at most six rounds; screenshots = rounds (+1 when a round raised), and fewer than six rounds exactly when `failures` rose; each round's hash is the hash of its own captured grid and its solution is that hash with "manual"; `handSolved` grows by the hashed rounds; the table is exactly the rounds stored in order (`RecordAll`), keeps distinct keys and grows by at most one per round; a reload follows every round but the last |
| CaptchaMemory.RecordAllStored | gitignore/memory_saver.py:201-206 | a round that returned both hash and solution leaves that pair in the table unless a later round stored the same hash |
| CaptchaMemory.RecordAllSpec | gitignore/memory_saver.py:196-206 | storing the rounds keeps keys distinct, grows the table by at most one entry per round, and changes nothing when no round recorded a hash |
| SkillText.ReplaceAllAbsent | gitignore/job_model.py:82 | `replace` leaves a text without the pattern unchanged |
| SkillText.KeptPrefix | gitignore/job_model.py:82 | a prefix of the rewritten text that avoids the replacement's first character was a prefix of the original |
| SkillText.ReplaceAllRemoves | gitignore/job_model.py:82 | when pattern and replacement share no first characters, no occurrence of the pattern is left |
| SkillText.JavaPatterns | gitignore/job_model.py:53-55 | the two JavaScript spellings both start with the Java pattern that precedes them |
| SkillText.JavaScriptRulesNeverFire | gitignore/job_model.py:51-55 | "جاوا" is rewritten first, so the two JavaScript rules never fire: the table acts as if they were absent |
| SkillText.ShadowedRules | gitignore/job_model.py:81-82 | in any table whose second rule rewrites "جاوا" and whose third and fourth patterns extend it, dropping the third and fourth rules changes nothing |
| SkillText.ApplyStep | gitignore/job_model.py:81-82 | the replacements run in insertion order, each over the whole text |
| SkillText.KeepSkillChars | gitignore/job_model.py:85 | the character-class substitution keeps the length of the text |
| SkillText.WordLength | gitignore/job_model.py:88 | a word runs up to the first whitespace |
| SkillText.SplitWords | gitignore/job_model.py:88 | `split()` gives non-empty words without whitespace, made of the text's characters |
| SkillText.JoinWords | gitignore/job_model.py:88 | `" ".join` gives no leading or trailing space and no two spaces in a row, and uses only word characters and spaces |
| SkillText.NormalizeSkillsShape | gitignore/job_model.py:75-90 | a missing value gives ""; every character of the result is a space or in the kept class (آ..ی, ASCII letters and digits, `+ . - #`), with no leading, trailing or doubled space |
| SkillText.AsciiUnchanged | gitignore/job_model.py:81-82 | ASCII text is left alone by the replacement table |
| SkillText.LowerWordUnchanged | gitignore/job_model.py:75-90 | a single lower-case ASCII word comes out of `normalize_skills` unchanged |
| SkillText.MissingBecomesNan | gitignore/job_model.py:96 | as written a missing requirement is stringified first and normalised to "nan", not to "" |
| SkillText.InsertPermutes | gitignore/job_model.py:114 | inserting an entry adds exactly that entry: the result is a permutation of the input plus it |
| SkillText.InsertWithCount | gitignore/job_model.py:114 | inserting keeps the entries of each count in their order |
| SkillText.InsertSorted | gitignore/job_model.py:114 | inserting into a descending list keeps it descending |
| SkillText.SortByCountSpec | gitignore/job_model.py:114 | the frequency list is descending by count, a permutation of its input, and stable for equal counts |
| SkillText.FilterFrequencies | gitignore/job_model.py:117-126 | the filter loop computes the specification `KeptFrequencies` |
| SkillText.KeptFrequenciesSpec | gitignore/job_model.py:117-126 | an entry is kept exactly when it is at least three characters long or one of r, c++, c#, go, and not all digits; a descending list stays descending |
| SkillText.KeptFrequenciesAppend | gitignore/job_model.py:117-126 | the filter keeps the order of the entries it keeps |
| SkillText.ClusterWords | gitignore/job_model.py:160 | a word is kept exactly when it has at least three characters or is r, c++ or c# |
| SkillText.GoOnlyInFrequencies | gitignore/job_model.py:120 | "go" passes the frequency filter but not the per-cluster filter |

## Left out

- Browser, network and image-library work: navigation, element lookup, scripts, `ActionChains`, frames, waits, downloads, the OpenCV pipeline and `scrape_job_details` are oracles. Their results are unconstrained beyond their types.
- The 32×32 grid is taken as given. The screenshot, grey-scale conversion and resize are not modelled.
- Randomness and timing: every `random.*` value is any value in its range, and every sleep is dropped.
- Floating point: the scale factor is computed exactly as the floor of a rational; the similarity test is the equivalent integer inequality for a 1024-bit hash; the equal drag steps of gitignore/final_scraper.py are reals.
- `ActionChains` accumulates actions across `perform()` calls, and `move_by_offset` converts its offsets to integers. Neither is modelled: each move records only its own offset.
- Character classes are ASCII: whitespace (tab to carriage return, the separators 0x1C-0x1F and space), `lower()` and `\d` act on ASCII only. Python also treats non-ASCII spaces as whitespace and lower-cases and matches non-ASCII letters and digits; the Persian text the scrapers handle has no case.
- BeautifulSoup traversal is given as the texts it yields (cards, meta items, info boxes, headings).
- Persistence and analytics: CSV and Excel files, JSON files, gspread calls, pandas, `CountVectorizer`, `KMeans`, printing and the top-N slices of the report.
- gitignore/job_model.py runs its whole pipeline at import time. Only its functions and filters are modelled; the vectoriser's output is a given list of (word, count) pairs.
- The account credentials are abstract strings; none is reproduced.
- The `except` around the solver call in `try_solve_captcha_with_retries` is unreachable, since `solve_arcaptcha` catches everything. The model keeps the path and records nothing extra for it.
- `auto_solve_captcha` never replays a solution; the model shows only that it reports failure.
- The debug and straight-line scripts in gitignore/ (JobVision_login.py, test_jobvision.py, find_gap_position.py, find_slider_elements.py, debug_page_structure.py) are not part of this model.
- The Enhanced scraper's own login methods and `smart_wait_for_captcha` are browser polling, left out like the other waits.
- `scroll_page` is modelled on the page heights the browser reports. The scrolling itself is an oracle.
- JobVision.JobVisionScraper.TrySolveCaptchaWithRetries: it drives the corrected `SolveArcaptcha`. With the solver as written (`SolveArcaptchaAsWritten`, first row under "## Findings") no run succeeds, so the retry loop as written returns false whenever a captcha appears.
- The clock (`datetime.now()`, `time.time()`) is an oracle read once per record; its readings are unconstrained strings or reals.
- SkillText.KeepSkillChars: its contract states only the length. The character-by-character effect shows up in `SkillText.NormalizeSkillsShape`.

## Findings

| source | as written | input that shows it | evidently intended | confidence | as-written member | corrected member |
|---|---|---|---|---|---|---|
| Jobvision_scraper.py:291 | `find_gap_position(bg, piece)` is called with two arguments, but the method at :372 takes three (`bg, piece, bg_elem`). The `TypeError` is caught at :358-360, so once both images download the solver returns `False` every time. | any captcha whose two images download | pass the background element, so that the gap is scaled to DOM pixels | high, not executed | JobVision.JobVisionScraper.SolveArcaptchaAsWritten | JobVision.JobVisionScraper.SolveArcaptcha |
| gitignore/job_model.py:96 | the column is converted with `astype(str)` before `apply(normalize_skills)`. A missing requirement becomes the string "nan", so the `pd.isna` branch at :76-77 never runs and "nan" is counted as a word. | a row whose requirements cell is empty | a missing requirement normalises to "" | high, not executed | SkillText.MissingBecomesNan | SkillText.NormalizeSkillsShape |
