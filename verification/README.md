# Uni-review client logic in Dafny

Uni-review is a Next.js web application where students read and write
reviews of Thai university programs. Every page queries a hosted database
and renders what comes back; between the fetched rows and the screen sit
small deterministic decisions. This project states those decisions as pure
Dafny functions over sequences and strings and proves what the pages
promise about them:

- the header search (`GlobalSearch`): the subsequence fuzzy matcher, the
  four-level match score, the candidate list, the stable sort by score and
  entity type, the 15-result cap, the five-entry recent-search list and the
  keyboard highlight;
- the like/dislike toggle, the printed mean, the owner-only delete control
  and the study-rating fallbacks of the review dialog;
- the exam-score table: the 23-entry catalogue, the label lookup, the
  grouping by key prefix, the colour bands and the bar width;
- the review feed: the university and type filters, page windows,
  has-more, appending pages, the loading flags behind the "load more"
  button (a failed load-more leaves that button disabled), the displayed
  rating and name fallbacks;
- the filter bar (round and year options, active filters, badge, chips),
  the admin review list (search, deletion, card text), the review card
  (round strip, project box, score preview) and the home page (name search,
  public/private label).

Modules: `Options` and `Seqs` and `Strings` are shared helpers (an optional
value; order-preserving filtering, in-order subsequences, contiguous
containment; ASCII case mapping and JavaScript `||` on strings). `Reviews`
holds the review record, the walk along its catalogue chain (program,
department, faculty, university) and the values several components compute
the same way. Each remaining module follows one source file: `Search`, `Votes`,
`ReviewDetail`, `ScoreTable`, `Feed`, `ReviewFilter`, `AdminReviews`,
`ReviewCard`, `Home`.

Conventions: ratings are integers 1 to 5; a mean printed with `toFixed(1)`
is an integer number of tenths, `(10 * sum + 1) / 3`, which is the correctly
rounded value because a third is never halfway between two tenths; the
stored `rating_total` is an opaque string; `toLowerCase` and `toUpperCase`
map ASCII letters and leave every other character alone (Thai has no case);
a JavaScript `undefined` or `null` is `None`. The score table's grouping
takes the key-to-label map as a parameter `names`; the rendered table passes
`NameMap(AllScoreTypes)`, the model of the module-level `scoreNameMap`.

## Model

| member | source | states |
|---|---|---|
| `Search.FuzzyMatch` | components/GlobalSearch.tsx:39-54 | answers true exactly when the lower-cased query is an in-order, not necessarily contiguous, subsequence of the lower-cased text; the substring shortcut never changes the answer (the greedy scan is proved equal to the subsequence relation by loop invariant) |
| `Search.MatchScore` | components/GlobalSearch.tsx:57-69 | the score is one of 100, 90, 70, 50: 100 iff the lower-cased strings are equal, 90 iff a proper prefix, 70 iff a substring but not a prefix, 50 iff not a substring, whether or not the fuzzy match holds |
| `Search.HighScoreMatches` | components/GlobalSearch.tsx:57-69 | any score above 50 implies the fuzzy match holds |
| `Search.RouteOf` | components/GlobalSearch.tsx:131-171 | a university opens `/university/` with its own id, a faculty `/university/` with its owning university's id, a program `/program/` with its own id; only programs open a program page |
| `Search.Tag` | components/GlobalSearch.tsx:131-143 | a fetched row becomes a hit iff it fuzzy-matches on its Thai name or on a present, non-empty English name; hits keep fetch order and carry their list's kind |
| `Search.TagIsFilter` | components/GlobalSearch.tsx:131-171 | each `forEach` with a guarded `push` is the filter of its tagged rows by the match guard, so its hits are an ordered sub-sequence of the fetched rows |
| `Search.Candidates` | components/GlobalSearch.tsx:131-171 | the candidate list holds exactly the matching universities, faculties and programs |
| `Search.CandidatesGrouped` | components/GlobalSearch.tsx:131-171 | candidates come as all universities, then all faculties, then all programs, each from its own list |
| `Search.Insert` | components/GlobalSearch.tsx:174-181 | one insertion step of the sort adds exactly the new hit (multiset) |
| `Search.NotOutranksTransitive` | components/GlobalSearch.tsx:174-181 | the comparator's "not before" relation is transitive |
| `Search.InsertRanked` | components/GlobalSearch.tsx:174-181 | inserting into a ranked list keeps it ranked |
| `Search.RankSort` | components/GlobalSearch.tsx:174-181 | the sort is a permutation ordered by score descending, then type priority descending |
| `Search.InsertTier` | components/GlobalSearch.tsx:174-181 | inserting keeps, within each (score, priority) tier, the original relative order |
| `Search.RankSortStable` | components/GlobalSearch.tsx:174-181 | the sort is stable: every tier of equal score and priority keeps insertion order |
| `Search.PerformSearch` | components/GlobalSearch.tsx:103-107 | a query under two characters yields no results; otherwise the results are the first min(15, n) of the sorted candidates, every one a candidate, scores non-increasing and priorities non-increasing among equal scores |
| `Search.TopRanked` | components/GlobalSearch.tsx:174-183 | the first fifteen of the sorted hits are min(15, n) entries, ordered by score descending and then priority descending |
| `Search.TopAreCandidates` | components/GlobalSearch.tsx:174-183 | sorting and the cut-off keep only input hits, so the shown results of candidate hits are candidates |
| `Search.CutOffKeepsBest` | components/GlobalSearch.tsx:183 | a candidate the cap drops is never ranked above a shown result |
| `Search.Without` | components/GlobalSearch.tsx:97 | the list with every copy of the search removed and every other entry kept, duplicates included, in order: the filter of the list by inequality to the search |
| `Search.SaveRecent` | components/GlobalSearch.tsx:96-100 | the new list starts with the search, holds it exactly once, has 1 to 5 entries and continues with the earlier entries other than the search |
| `Search.WithoutIsSubsequence` | components/GlobalSearch.tsx:97 | removing a search keeps the other entries in order |
| `Search.SaveRecentKeepsOrder` | components/GlobalSearch.tsx:96-100 | the earlier entries keep their relative order |
| `Search.SaveRecentIdempotent` | components/GlobalSearch.tsx:96-100 | saving the same search twice in a row is the same as saving it once |
| `Search.HandleKey` | components/GlobalSearch.tsx:211-226 | ArrowDown never passes the last result, ArrowUp never goes below -1, both keep an in-range highlight in range; Enter navigates (and records the query) iff the highlight names an existing result; Escape closes |
| `Search.Type` | components/GlobalSearch.tsx:266-272 | typing sets the query, opens the dropdown and clears the highlight, keeping results and recent queries; Enter then opens nothing, and the next ArrowDown highlights the first result (or stays at -1 with no results) |
| `Search.ClickResult` | components/GlobalSearch.tsx:250-253 | clicking a result follows its link, records the query and closes the dropdown, exactly as Enter does on the highlighted result |
| `Search.ClearQuery` | components/GlobalSearch.tsx:288-292 | the clear button empties query and results but keeps the highlight index, after which Enter opens nothing |
| `Search.KeysKeepSelection` | components/GlobalSearch.tsx:211-219 | after any sequence of key presses from an in-range highlight the highlight stays in [-1, results - 1] |
| `Votes.InitialVotes` | components/ReviewDetailModal.tsx:92-94 | the dialog starts with no vote and counters at the loaded counts (absent meaning 0), so the counters-equal-base-plus-vote invariant holds from the start |
| `Votes.HandleVote` | components/ReviewDetailModal.tsx:106-118 | clicking the current vote withdraws it, any other click makes it the vote; each counter moves by the change in whether it is the voted one |
| `Votes.FirstVote` | components/ReviewDetailModal.tsx:111-116 | from no vote, exactly the chosen counter rises by one |
| `Votes.SwitchVote` | components/ReviewDetailModal.tsx:111-116 | switching moves one count across; likes plus dislikes is unchanged |
| `Votes.VoteTwiceRestores` | components/ReviewDetailModal.tsx:107-110 | clicking the same button twice restores counters and vote |
| `Votes.HandleVoteAccounts` | components/ReviewDetailModal.tsx:106-118 | one click keeps likes = base + [voted like] and dislikes = base + [voted dislike] |
| `Votes.ClicksAccount` | components/ReviewDetailModal.tsx:93-118 | after any click sequence from opening, the counters are the loaded counts plus the current vote |
| `Reviews.MeanTenths` | components/ReviewDetailModal.tsx:100 | the printed mean in tenths is within a third of a tenth of the exact mean |
| `Reviews.MeanTenthsIsNearest` | components/ReviewDetailModal.tsx:100 | it is the only tenth within half a tenth of the exact mean, so it is what `toFixed(1)` prints |
| `Reviews.MeanTenthsBounds` | components/ReviewCard.tsx:78 | ratings of 1 to 5 print a mean from 1.0 to 5.0 |
| `Reviews.RoundLabel` | components/ReviewCard.tsx:46-79 | a round configuration exists exactly for rounds 1 to 4 |
| `Reviews.PortfolioRoundsAreConfigured` | components/ReviewCard.tsx:81 | the portfolio rounds are exactly 1, 2 and 4, the configured rounds other than 3 |
| `Reviews.AuthorText` | components/ReviewCard.tsx:109-114 | the author text is the full name when non-empty, else the email when non-empty, else the fallback |
| `Reviews.AvatarMatchesDisplayName` | components/ReviewCard.tsx:109-114 | the avatar shows the upper-cased first character of the displayed name whenever the author has a non-empty name or email, and 'U' beside the generic user name otherwise |
| `Reviews.FacultyOf` | app/reviews/page.tsx:209-210 | `programs?.departments?.faculties` is present iff program, department and faculty all are, and is then the faculty at that path |
| `Reviews.UniversityOf` | app/reviews/page.tsx:170 | `programs?.departments?.faculties?.universities` is present iff every link of the chain is, and is then the university at its end |
| `ReviewDetail.AvgRating` | components/ReviewDetailModal.tsx:100 | the dialog's mean lies in 1.0..5.0 and is the correctly rounded three-rating mean |
| `ReviewDetail.AvgRatingIgnoresType` | components/ReviewDetailModal.tsx:100 | the mean does not depend on the review type or the study ratings |
| `ReviewDetail.ShowDelete` | components/ReviewDetailModal.tsx:104 | the delete button shows iff a non-empty current user id equals the author id and a delete handler was given |
| `ReviewDetail.DeleteFlow` | components/ReviewDetailModal.tsx:120-132 | without a handler or confirmation nothing happens; otherwise success closes the dialog and failure alerts |
| `ReviewDetail.StudyRating` | components/ReviewDetailModal.tsx:194 | a study rating falls back to its legacy column when absent or 0 |
| `ReviewDetail.RatingOrDash` | components/ReviewDetailModal.tsx:199-204 | cost and food show a dash when absent or 0 |
| `ReviewDetail.StudyFallbackConsistent` | components/ReviewDetailModal.tsx:194-215 | friends, environment and overall show the social, facility and academic ratings when the study columns are absent or carry the same values |
| `ScoreTable.CategoryOfPrefixes` | components/ScoreTable.tsx:120-128 | a key goes to the first group whose prefix it has, among "TGAT", "TPAT", "A_", else other |
| `ScoreTable.NameMapKeys` | components/ScoreTable.tsx:62-66 | the label map's keys are exactly the catalogue's keys |
| `ScoreTable.NameMapLookup` | components/ScoreTable.tsx:62-66 | with distinct keys every key maps to its own label |
| `ScoreTable.CatalogueRouting` | components/ScoreTable.tsx:11-60 | the catalogue is 3 TGAT, 5 TPAT and 15 A-Level entries, 23 in all, each routed by its prefix to its own group, none with an empty label |
| `ScoreTable.CatalogueDistinct` | components/ScoreTable.tsx:11-60 | the 23 catalogue keys are distinct |
| `ScoreTable.LabelLookup` | components/ScoreTable.tsx:118 | a catalogue key is labelled with its catalogue label; any other key with its underscores replaced by spaces |
| `ScoreTable.Labelled` | components/ScoreTable.tsx:117-118 | the object pushed for an entry keeps the entry's key and value |
| `ScoreTable.LabelledCaption` | components/ScoreTable.tsx:118 | the pushed object's caption is the label map's non-empty name for the key, otherwise the key with every underscore turned into a space |
| `ScoreTable.Push` | components/ScoreTable.tsx:120-128 | one push appends the labelled entry to the group of its category and leaves the other three groups as they were |
| `ScoreTable.GroupScores` | components/ScoreTable.tsx:109-129 | the grouping loop returns, for each category, the labelled entries whose key selects it, in input order, and the group sizes sum to the number of entries |
| `ScoreTable.GroupsOfCategory` | components/ScoreTable.tsx:116-129 | each group the `forEach` builds is the labelled list of exactly the entries whose key selects that group |
| `ScoreTable.GroupMembership` | components/ScoreTable.tsx:116-129 | an entry is in a group iff it is one of the entries and its key routes there |
| `ScoreTable.GroupOrder` | components/ScoreTable.tsx:116-129 | every group is an in-order subsequence of the entries |
| `ScoreTable.GroupsOfSize` | components/ScoreTable.tsx:116-129 | the four groups together hold as many scores as there are entries |
| `ScoreTable.SectionsOfFacts` | components/ScoreTable.tsx:131-145 | each section holds its category's whole group and is non-empty, sections come in the order TGAT, TPAT, A-Level, other with no category twice, and together they hold every grouped score |
| `ScoreTable.SectionShown` | components/ScoreTable.tsx:143-145 | a category has a section iff its group is non-empty |
| `ScoreTable.Render` | components/ScoreTable.tsx:100-145 | missing or empty scores give the no-data state; otherwise each section holds exactly the labelled entries of its category in entry order and is non-empty, sections come in the order TGAT, TPAT, A-Level, other, and together they hold all the entries |
| `ScoreTable.RenderShowsCategory` | components/ScoreTable.tsx:116-145 | in a rendered table a category has a section iff some entry's key selects it |
| `ScoreTable.BandOf` | components/ScoreTable.tsx:69-79 | high iff at least 80, mid iff from 60 to under 80, low iff under 60 |
| `ScoreTable.BandMonotone` | components/ScoreTable.tsx:69-79 | a higher score never gets a lower band |
| `ScoreTable.ScoreColor` | components/ScoreTable.tsx:69-73 | the card colour is the class of the score's band |
| `ScoreTable.ScoreGradient` | components/ScoreTable.tsx:75-79 | the bar gradient is the gradient of the score's band |
| `ScoreTable.ProgressWidth` | components/ScoreTable.tsx:178 | the bar width is min(score, 100): the score when it is at most 100, and 100 above that |
| `Feed.UniversityId` | app/reviews/page.tsx:170 | a review has a university id iff every link of its catalogue chain is present, and it is the id at the end of the chain |
| `Feed.ByUniversityThenType` | app/reviews/page.tsx:166-177 | the two successive filters keep exactly the reviews that pass both |
| `Feed.FilteredPage` | app/reviews/page.tsx:166-177 | the filtered page holds exactly the page's reviews of the chosen university (a broken chain never matches) and type (absent meaning admission), in fetch order; "all" and "all" keep the whole page |
| `Feed.DisplayRating` | app/reviews/page.tsx:199-204 | the stored total is shown whenever present; otherwise the correctly rounded mean, 1.0 to 5.0 |
| `Feed.UniName` | app/reviews/page.tsx:206-207 | the name of the university at the end of a complete chain, and the empty string when a link is missing |
| `Feed.FacultyName` | app/reviews/page.tsx:209-210 | the name of the faculty when program, department and faculty are present, and the empty string otherwise |
| `Feed.ProgramName` | app/reviews/page.tsx:212-213 | the program's name, or "ไม่ระบุสาขา" when the program is missing or unnamed |
| `Feed.RequestRange` | app/reviews/page.tsx:154 | each request asks for the 20 rows from the offset on, inclusive bounds |
| `Feed.StartFetch` | app/reviews/page.tsx:122-124 | a first-page fetch raises the loading flag and a later one the loading-more flag, each leaving the other flag, the list, has-more and the error as they were |
| `Feed.ApplyFetch` | app/reviews/page.tsx:158-188 | an error is recorded, the loading flag drops and the list, has-more and the loading-more flag are unchanged; a page is filtered and appended or replaces the list, has-more iff the unfiltered page had 20 rows, and both loading flags drop |
| `Feed.LoadMoreButton` | app/reviews/page.tsx:393-396 | the button is rendered iff has-more holds and the first page is not loading; it is disabled and reads "กำลังโหลด..." iff a load-more is in flight, else it reads "โหลดเพิ่มเติม" |
| `Feed.FailedLoadMoreKeepsButtonBusy` | app/reviews/page.tsx:158-163 | a load-more whose request fails leaves the loading-more flag raised, so the button stays disabled and reads "กำลังโหลด..." |
| `Feed.LoadMoreOffsetLags` | app/reviews/page.tsx:195-197 | the as-written next offset never exceeds the rows of the first window, and falls below them as soon as the filters hide one of those rows |
| `Feed.RefetchRepeats` | app/reviews/page.tsx:179-197 | for any rows and filter: when the filter hides rows of a full first window, the window starting at the shown count re-fetches them and every kept row in the overlap is shown twice |
| `Feed.LoadMoreRepeatsRows` | app/reviews/page.tsx:179-197 | with a filter hiding rows of a full first page, "load more" shows again a row it already shows |
| `Feed.ApplyFetchCounted` | app/reviews/page.tsx:158-185 | the same update, also advancing the number of rows fetched by the page length |
| `Feed.PagesShowFetchedPrefix` | app/reviews/page.tsx:154-197 | for any rows and filter, paging by rows fetched has fetched min(total, 20(k + 1)) rows after k loads and shows exactly the filtered prefix fetched |
| `Feed.SessionIsPages` | app/reviews/page.tsx:158-197 | the feed with the fetched-row offset pages exactly like that generic sequence with the two filters as its predicate |
| `Feed.SessionShowsFetchedPrefix` | app/reviews/page.tsx:166-197 | with the fetched-row offset, after k loads the feed has fetched min(total, 20(k + 1)) rows and shows exactly the filtered rows fetched so far, in order |
| `Feed.SessionNoRepeats` | app/reviews/page.tsx:179-197 | with the fetched-row offset, no review is shown more often than the backend holds it |
| `ReviewFilter.FindRound` | components/ReviewFilter.tsx:21-27 | the round options are exactly "all", "1", "2", "3", "4", and a lookup returns the option with that value |
| `ReviewFilter.RoundCaptionsMatchCards` | components/ReviewFilter.tsx:23-26 | the filter's round captions are the card's round labels |
| `ReviewFilter.AdmissionYears` | components/ReviewFilter.tsx:29-38 | "all" followed by the current Buddhist year + 2 counting down, max(0, current + 2 - 2553 + 1) years |
| `ReviewFilter.AdmissionYearsFacts` | components/ReviewFilter.tsx:29-38 | the years are strictly descending and a year is listed iff it lies from 2553 to the current Buddhist year + 2 |
| `ReviewFilter.Badge` | components/ReviewFilter.tsx:77-85 | the badge shows filtered of total iff a filter is active, else only the total |
| `ReviewFilter.ClearAgreesWithBadge` | components/ReviewFilter.tsx:51-248 | the clear button shows iff the badge reads "shown of total", no chip shows without it, and a selected year has its chip |
| `ReviewFilter.ActiveChips` | components/ReviewFilter.tsx:248-271 | no chips without an active filter; a round chip iff the round is not "all" and is a known option; a year chip "พ.ศ. year" iff the year is not "all" |
| `ReviewFilter.RoundChipText` | components/ReviewFilter.tsx:251-262 | a known round's chip reads "รอบ n - " and the round's label |
| `ReviewFilter.TypeOnlyFilter` | components/ReviewFilter.tsx:51 | a type filter alone counts as filtering yet shows no chip |
| `AdminReviews.UniversityName` | app/admin/reviews/page.tsx:107 | a university name exists iff every link of the chain is present, and it is the name of the university at its end |
| `AdminReviews.FilterReviews` | app/admin/reviews/page.tsx:104-108 | a review is listed iff its comment, program name or university name contains the search, case-insensitively |
| `AdminReviews.FilterReviewsKeepsOrder` | app/admin/reviews/page.tsx:104-108 | the listed reviews keep the newest-first order |
| `AdminReviews.EmptySearch` | app/admin/reviews/page.tsx:104-108 | with an empty search a review is listed iff it has a comment or a program |
| `AdminReviews.LongerSearchNarrows` | app/admin/reviews/page.tsx:104-108 | a review matching a search also matches every prefix of it |
| `AdminReviews.HandleDelete` | app/admin/reviews/page.tsx:89-102 | cancel or failure leaves the list unchanged (failure alerts with the message); success removes exactly the reviews with that id |
| `AdminReviews.DeleteKeepsOrderAndIsIdempotent` | app/admin/reviews/page.tsx:100 | deletion keeps the others in order, and deleting again changes nothing |
| `AdminReviews.Card` | app/admin/reviews/page.tsx:173-216 | the card prints the correctly rounded mean, and "ไม่ระบุ", "ไม่ระบุหลักสูตร", "ไม่มีความคิดเห็น" for a missing university, program and comment |
| `ReviewCard.PreviewScores` | components/ReviewCard.tsx:84-86 | the preview is the first min(3, n) scores in map order, none without scores |
| `ReviewCard.MoreCount` | components/ReviewCard.tsx:187-188 | the "+N" count is present iff there are more than 3 scores, and then it is positive |
| `ReviewCard.PreviewAndMoreCoverAll` | components/ReviewCard.tsx:84-188 | preview plus N is the number of scores |
| `ReviewCard.ProjectPreview` | components/ReviewCard.tsx:152-157 | the project box shows iff the round is 1, 2 or 4 and the project name is non-empty, headed "โครงการรับตรง" iff round 4 |
| `ReviewCard.View` | components/ReviewCard.tsx:78-188 | the strip and badge show iff the round is configured; the score box iff round 3; the score preview and "+N" only inside that box, the preview non-empty iff the review is round 3 with at least one score, and "+N" only beside a full preview of three; mean, author name and avatar as everywhere else |
| `ReviewCard.PanelsExclusive` | components/ReviewCard.tsx:152-169 | a card never shows both boxes, and either box comes with the round strip |
| `Home.FilterUnis` | app/page.tsx:51-53 | a university is listed iff its lower-cased name contains the lower-cased search |
| `Home.FilterUnisFacts` | app/page.tsx:40-53 | the list keeps the newest-first order, and an empty search lists all |
| `Home.LongerSearchNarrows` | app/page.tsx:51-53 | typing more never adds a university |
| `Home.HomeMatchIsFuzzyMatch` | app/page.tsx:51-53 | a name the home page's substring search finds also fuzzy-matches the same text under the header search's matcher |
| `Home.HomeMatchIsCandidate` | app/page.tsx:51-53 | a fetched university row whose Thai name the home search finds is among the header search's candidates for the same text |
| `Home.TypeLabel` | app/page.tsx:127-128 | "รัฐบาล" iff the type is exactly "Public", "เอกชน" otherwise |

## Left out

- Database queries, authentication, role checks and redirects: fetched rows,
  the current user and backend replies are parameters (a snapshot of rows in
  the backend's order, a success or failure result).
- Sorting by `created_at` or `rating_total` in the backend: the snapshot's
  order is taken as given.
- The 100-row limit of the search's program query and the 300 ms debounce;
  `localStorage` persistence and parsing of recent searches; the
  click-outside listener; focus and blur.
- A search request that throws: the `catch` at
  components/GlobalSearch.tsx:184-187 logs the error and keeps the previous
  results; `Search.PerformSearch` takes the fetched rows as given and has no
  failure case.
- The recent and popular search buttons: they set the query and call the
  search, which `Search.PerformSearch` models.
- Floating point: `toFixed`, `Number(rating_total)` and `parseFloat` with its
  `|| 0` default; scores are reals, the mean is in integer tenths and the
  stored total is an opaque string.
- Dates: `new Date().getFullYear()` is a parameter, and date formatting is
  not modelled.
- Case mapping beyond ASCII and the UTF-16 encoding of strings: characters
  are Dafny `char`s and only ASCII letters change case.
- The score map's key order is taken as the insertion order JavaScript gives
  to non-numeric keys; inherited object properties in the label map are not
  modelled.
- The review dialog's `isDeleting` flag, which disables the delete button
  and shows "กำลังลบ..." while the request runs; `finally` always clears it,
  so `ReviewDetail.DeleteFlow` ends in the same state with or without it.
- The study-year, study-tips, GPAX, portfolio-link and admission-year text of
  the card and dialog, the category colour helpers and all styling and
  layout.
- Home.HomeMatchIsCandidate: states candidacy only, not that the header
  shows the university: the header also needs a query of at least two
  characters, keeps only the fifteen best-ranked candidates and searches
  only the rows it fetched.
- Votes.ClicksAccount: the dialog's counters and vote are initialised from
  the review only when it first mounts and the dialog stays mounted across
  reviews, so the lemma assumes the counters start at the review's stored
  likes and dislikes; the callers that mount the dialog are not part of
  this model.
- Pages outside the logic above (writing a review, seeding, the admin
  catalogue editors, login) and the backend's cascading deletes.

## Findings

| source | as written | input that shows it | evidently intended | confidence | as-written member | corrected member |
|---|---|---|---|---|---|---|
| app/reviews/page.tsx:195-197 | `loadMore` passes `reviews.length`, the number of reviews left after the client-side filters, as the next range offset | type filter "study" over 22 or more rows where rows 0 and 5 are study reviews: the first page shows 2 reviews with has-more true, the next request starts at row 2 and row 5 is shown twice | continue from the number of rows fetched so far | not executed | `Feed.LoadMoreRepeatsRows` | `Feed.SessionShowsFetchedPrefix` |
