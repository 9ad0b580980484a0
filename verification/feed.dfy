/** The review feed page: client-side university and type filters over
    each fetched page, page ranges, the has-more rule, appending pages,
    the displayed rating and the catalogue-name fallbacks. */
module Feed {
  import opened Options
  import opened Seqs
  import opened Strings
  import opened Reviews

  const PageSize := 20
  const All := "all"

  /** The university id and review type chosen in the two selects; "all"
      disables a filter. */
  datatype Filters = Filters(university: string, reviewType: string)

  /** `programs?.departments?.faculties?.universities?.id`. */
  function UniversityId(r: Review): (id: Option<string>)
    ensures id.Some? <==> UniversityOf(r).Some?
    ensures id.Some? ==> id.value == UniversityOf(r).value.id
  {
    match UniversityOf(r)
    case None => None
    case Some(u) => Some(u.id)
  }

  /** `review_type || 'admission'`. */
  function EffectiveType(r: Review): string {
    OrElse(r.reviewType, "admission")
  }

  /** A review survives both filters. */
  predicate Keeps(r: Review, f: Filters) {
    (f.university == All || UniversityId(r) == Some(f.university)) &&
    (f.reviewType == All || EffectiveType(r) == f.reviewType)
  }

  predicate OfUniversity(r: Review, university: string) {
    UniversityId(r) == Some(university)
  }

  predicate OfType(r: Review, reviewType: string) {
    EffectiveType(r) == reviewType
  }

  /** The two `filter` calls of `fetchReviews`, university first. */
  function ApplyFilters(page: seq<Review>, f: Filters): seq<Review> {
    var byUni := if f.university != All then Filter(page, r => OfUniversity(r, f.university)) else page;
    if f.reviewType != All then Filter(byUni, r => OfType(r, f.reviewType)) else byUni
  }

  /** `Keeps` as a value, so that every filter by it names the same
      predicate. */
  function KeepFn(f: Filters): Review -> bool {
    r => Keeps(r, f)
  }

  /** The reviews of `page` that survive both filters, in page order. */
  function Kept(page: seq<Review>, f: Filters): seq<Review> {
    Filter(page, KeepFn(f))
  }

  /** Filtering by university and then by type is filtering once by both. */
  lemma ByUniversityThenType(page: seq<Review>, f: Filters)
    ensures ApplyFilters(page, f) == Kept(page, f)
  {
    var uni := (r: Review) => OfUniversity(r, f.university);
    var typ := (r: Review) => OfType(r, f.reviewType);
    var keep := KeepFn(f);
    if f.university != All && f.reviewType != All {
      FilterTwice(page, uni, typ, keep);
    } else if f.university != All {
      FilterSame(page, uni, keep);
    } else if f.reviewType != All {
      FilterSame(page, typ, keep);
    } else {
      FilterKeepsAll(page, keep);
    }
  }

  /** The filtered page keeps exactly the surviving reviews, in fetch
      order: a broken catalogue chain fails any university filter, and a
      missing type counts as an admission review. */
  lemma FilteredPage(page: seq<Review>, f: Filters)
    ensures forall i :: 0 <= i < |ApplyFilters(page, f)| ==> Keeps(ApplyFilters(page, f)[i], f)
    ensures forall i :: 0 <= i < |page| && Keeps(page[i], f) ==> page[i] in ApplyFilters(page, f)
    ensures IsSubsequence(ApplyFilters(page, f), page)
    ensures f == Filters(All, All) ==> ApplyFilters(page, f) == page
  {
    ByUniversityThenType(page, f);
    FilterMembers(page, KeepFn(f));
    FilterIsSubsequence(page, KeepFn(f));
  }

  /** The shown rating: the stored `rating_total` when present, else the
      three-rating mean in tenths. */
  datatype ShownRating = StoredTotal(raw: string) | MeanOf(tenths: int)

  /** `getDisplayRating`. */
  function DisplayRating(r: Review): (shown: ShownRating)
    ensures shown.StoredTotal? <==> r.ratingTotal.Some?
    ensures shown.StoredTotal? ==> shown.raw == r.ratingTotal.value
    ensures shown.MeanOf? ==> shown.tenths == ReviewMeanTenths(r) && 10 <= shown.tenths <= 50
  {
    match r.ratingTotal
    case Some(raw) => StoredTotal(raw)
    case None => MeanOf(ReviewMeanTenths(r))
  }

  /** `getUniName`: the university's name, or '' when a link is missing. */
  function UniName(r: Review): (name: string)
    ensures UniversityId(r).None? ==> name == ""
    ensures UniversityId(r).Some? ==> name == r.program.value.department.value.faculty.value.university.value.name
  {
    match UniversityOf(r)
    case None => ""
    case Some(u) => u.name
  }

  /** `getFacultyName`: the faculty's name, or '' when a link is missing. */
  function FacultyName(r: Review): (name: string)
    ensures (r.program.None? || r.program.value.department.None? ||
             r.program.value.department.value.faculty.None?) ==> name == ""
    ensures (r.program.Some? && r.program.value.department.Some? && r.program.value.department.value.faculty.Some?) ==>
      name == r.program.value.department.value.faculty.value.name
  {
    match FacultyOf(r)
    case None => ""
    case Some(fac) => fac.name
  }

  const UnspecifiedProgram := "ไม่ระบุสาขา"

  /** `getProgramName`: the program's name, or the unspecified-program text
      when the program is missing or its name empty. */
  function ProgramName(r: Review): (name: string)
    ensures r.program.Some? && r.program.value.name != "" ==> name == r.program.value.name
    ensures r.program.None? || r.program.value.name == "" ==> name == UnspecifiedProgram
  {
    match r.program
    case None => UnspecifiedProgram
    case Some(p) => if p.name != "" then p.name else UnspecifiedProgram
  }

  /** `.range(offset, offset + PAGE_SIZE - 1)`: inclusive bounds of twenty
      rows. */
  function RequestRange(offset: nat): (range: (nat, nat))
    ensures range.0 == offset && range.1 - range.0 + 1 == PageSize
  {
    (offset, offset + PageSize - 1)
  }

  /** The rows the backend returns for a range request over the ordered
      snapshot `rows`. */
  function Window<T>(rows: seq<T>, offset: nat): (page: seq<T>)
    ensures |page| <= PageSize
    ensures offset + PageSize <= |rows| ==> page == rows[offset..offset + PageSize]
  {
    var lo := Min(offset, |rows|);
    var hi := Min(offset + PageSize, |rows|);
    rows[lo..hi]
  }

  datatype FetchResult = Rows(rows: seq<Review>) | Failed(message: string)

  /** The feed page's state: the shown reviews, whether more pages are
      offered, the last error, and the two spinners, `loading` for the first
      page and `loadingMore` for a further one. */
  datatype FeedState = FeedState(reviews: seq<Review>, hasMore: bool, error: Option<string>, loading: bool, loadingMore: bool)

  const Initial := FeedState([], true, None, true, false)

  /** The start of `fetchReviews`: offset 0 raises `loading`, any other
      offset `loadingMore`; nothing else changes. */
  function StartFetch(s: FeedState, offset: nat): (t: FeedState)
    ensures t.reviews == s.reviews && t.hasMore == s.hasMore && t.error == s.error
    ensures offset == 0 ==> t.loading && t.loadingMore == s.loadingMore
    ensures offset > 0 ==> t.loadingMore && t.loading == s.loading
  {
    if offset == 0 then s.(loading := true) else s.(loadingMore := true)
  }

  /** The state update at the end of `fetchReviews`: an error is recorded,
      leaves the list alone and lowers only `loading`; a page is filtered and
      either appended or replaces the list, more pages are offered exactly
      when this one was full, whatever the filters kept, and both spinners
      stop. */
  function ApplyFetch(s: FeedState, result: FetchResult, f: Filters, append: bool): (t: FeedState)
    ensures result.Failed? ==> t == s.(error := Some(result.message), loading := false)
    ensures result.Rows? && append ==> t.reviews == s.reviews + ApplyFilters(result.rows, f)
    ensures result.Rows? && !append ==> t.reviews == ApplyFilters(result.rows, f)
    ensures result.Rows? ==> (t.hasMore <==> |result.rows| == PageSize) && t.error == s.error
    ensures result.Rows? ==> !t.loading && !t.loadingMore
  {
    match result
    case Failed(message) => s.(error := Some(message), loading := false)
    case Rows(rows) =>
      var filtered := ApplyFilters(rows, f);
      s.(reviews := if append then s.reviews + filtered else filtered, hasMore := |rows| == PageSize,
         loading := false, loadingMore := false)
  }

  /** The "load more" button: drawn under the list when more pages are
      offered and the first page is not loading, disabled and reading the
      loading text while a further page is loading. */
  datatype LoadButton = LoadButton(disabled: bool, caption: string)

  const LoadMoreLabel := "โหลดเพิ่มเติม"
  const LoadingLabel := "กำลังโหลด..."

  function LoadMoreButton(s: FeedState): (b: Option<LoadButton>)
    ensures b.Some? <==> !s.loading && s.hasMore
    ensures b.Some? ==> (b.value.disabled <==> s.loadingMore)
    ensures b.Some? ==> (b.value.caption == LoadingLabel <==> s.loadingMore)
    ensures b.Some? ==> (b.value.caption == LoadMoreLabel <==> !s.loadingMore)
  {
    if !s.loading && s.hasMore then
      Some(LoadButton(s.loadingMore, if s.loadingMore then LoadingLabel else LoadMoreLabel))
    else None
  }

  /** A failed further page leaves `loadingMore` raised: the button stays
      drawn, disabled and reading the loading text, and only a later
      successful fetch lowers it. */
  lemma FailedLoadMoreKeepsButtonBusy(s: FeedState, offset: nat, message: string, f: Filters)
    requires offset > 0 && s.hasMore
    ensures ApplyFetch(StartFetch(s, offset), Failed(message), f, true).loadingMore
    ensures LoadMoreButton(ApplyFetch(StartFetch(s, offset), Failed(message), f, true)) == Some(LoadButton(true, LoadingLabel))
  {
  }

  /** `loadMore`, as written: the next offset is the number of reviews
      displayed, which counts only the rows the filters kept. */
  function LoadMoreOffset(s: FeedState): nat
  {
    |s.reviews|
  }

  /** The as-written offset never passes the rows already fetched, and it
      falls short of them as soon as the filters hide any row of the first
      window. */
  lemma LoadMoreOffsetLags(rows: seq<Review>, f: Filters, j: int)
    ensures LoadMoreOffset(ApplyFetch(Initial, Rows(Window(rows, 0)), f, false)) <= |Window(rows, 0)|
    ensures 0 <= j < |Window(rows, 0)| && !Keeps(Window(rows, 0)[j], f) ==>
      LoadMoreOffset(ApplyFetch(Initial, Rows(Window(rows, 0)), f, false)) < |Window(rows, 0)|
  {
    ByUniversityThenType(Window(rows, 0), f);
    if 0 <= j < |Window(rows, 0)| && !Keeps(Window(rows, 0)[j], f) {
      FilterDropShortens(Window(rows, 0), KeepFn(f), j);
    }
  }

  /** The first page and one "load more" over the snapshot `rows`, as
      written. */
  function AsWrittenTwoPages(rows: seq<Review>, f: Filters): (FeedState, FeedState) {
    var first := ApplyFetch(Initial, Rows(Window(rows, 0)), f, false);
    var second := ApplyFetch(first, Rows(Window(rows, LoadMoreOffset(first))), f, true);
    (first, second)
  }

  /** Over any rows and any filter: when the filter hides rows of a full
      first window, the window starting at the shown count overlaps the
      first one, and every kept row in the overlap appears twice. */
  lemma RefetchRepeats<T>(rows: seq<T>, keep: T -> bool, j: nat)
    requires |rows| >= PageSize
    requires |Filter(Window(rows, 0), keep)| <= j < PageSize
    requires keep(rows[j])
    ensures var k := |Filter(Window(rows, 0), keep)|;
      multiset(Filter(Window(rows, 0), keep) + Filter(Window(rows, k), keep))[rows[j]] >= 2
  {
    var k := |Filter(Window(rows, 0), keep)|;
    FilterMembers(Window(rows, 0), keep);
    FilterMembers(Window(rows, k), keep);
    assert Window(rows, 0)[j] == rows[j];
    assert rows[j] in Filter(Window(rows, 0), keep);
    assert Window(rows, k)[j - k] == rows[j];
    assert rows[j] in Filter(Window(rows, k), keep);
  }

  /** With a filter active the first page can be full while fewer than
      twenty reviews are shown; "load more" then asks again for rows of the
      first page, and every kept row among them is displayed twice. */
  lemma LoadMoreRepeatsRows(rows: seq<Review>, f: Filters, j: nat)
    requires |rows| >= PageSize
    requires |AsWrittenTwoPages(rows, f).0.reviews| <= j < PageSize
    requires Keeps(rows[j], f)
    ensures AsWrittenTwoPages(rows, f).0.hasMore
    ensures multiset(AsWrittenTwoPages(rows, f).1.reviews)[rows[j]] >= 2
  {
    var first := AsWrittenTwoPages(rows, f).0;
    var k := |first.reviews|;
    ByUniversityThenType(Window(rows, 0), f);
    ByUniversityThenType(Window(rows, k), f);
    RefetchRepeats(rows, KeepFn(f), j);
  }

  /** The same page sequence with the offset kept as the number of rows
      fetched so far, before filtering. */
  datatype PagedFeed = PagedFeed(reviews: seq<Review>, fetched: nat, hasMore: bool, error: Option<string>)

  /** The state update with the raw row count carried along. */
  function ApplyFetchCounted(s: PagedFeed, offset: nat, result: FetchResult, f: Filters, append: bool): (t: PagedFeed)
    ensures result.Failed? ==> t == s.(error := Some(result.message))
    ensures result.Rows? ==> t.fetched == offset + |result.rows| && (t.hasMore <==> |result.rows| == PageSize)
    ensures result.Rows? && append ==> t.reviews == s.reviews + ApplyFilters(result.rows, f)
    ensures result.Rows? && !append ==> t.reviews == ApplyFilters(result.rows, f)
  {
    match result
    case Failed(message) => s.(error := Some(message))
    case Rows(page) =>
      var filtered := ApplyFilters(page, f);
      PagedFeed(if append then s.reviews + filtered else filtered, offset + |page|, |page| == PageSize, s.error)
  }

  /** Corrected `loadMore`: continue after the last row fetched. */
  function NextOffset(s: PagedFeed): nat
  {
    s.fetched
  }

  /** The feed after the first page and `loads` further pages over the
      snapshot `rows`, with the corrected offset. */
  function Session(rows: seq<Review>, f: Filters, loads: nat): PagedFeed
    decreases loads
  {
    if loads == 0 then ApplyFetchCounted(PagedFeed([], 0, true, None), 0, Rows(Window(rows, 0)), f, false)
    else
      var s := Session(rows, f, loads - 1);
      ApplyFetchCounted(s, NextOffset(s), Rows(Window(rows, NextOffset(s))), f, true)
  }

  /** The corrected page sequence over any rows and filter: the rows shown
      and the number of rows fetched after the first page and `loads` more. */
  function Pages<T>(rows: seq<T>, keep: T -> bool, loads: nat): (seq<T>, nat)
    decreases loads
  {
    if loads == 0 then (Filter(Window(rows, 0), keep), |Window(rows, 0)|)
    else
      var prev := Pages(rows, keep, loads - 1);
      (prev.0 + Filter(Window(rows, prev.1), keep), prev.1 + |Window(rows, prev.1)|)
  }

  /** Each corrected load advances by one full window. */
  lemma {:induction false} PagesFetched<T>(rows: seq<T>, keep: T -> bool, loads: nat)
    ensures Pages(rows, keep, loads).1 == Min(|rows|, (loads + 1) * PageSize)
    decreases loads
  {
    if loads > 0 {
      PagesFetched(rows, keep, loads - 1);
    }
  }

  lemma PagesStep<T>(rows: seq<T>, keep: T -> bool, loads: nat)
    requires loads > 0
    requires Pages(rows, keep, loads - 1).1 <= Pages(rows, keep, loads).1 <= |rows|
    requires Pages(rows, keep, loads - 1).0 == Filter(rows[..Pages(rows, keep, loads - 1).1], keep)
    ensures Pages(rows, keep, loads).0 == Filter(rows[..Pages(rows, keep, loads).1], keep)
  {
    var lo := Pages(rows, keep, loads - 1).1;
    var hi := Pages(rows, keep, loads).1;
    assert Window(rows, lo) == rows[lo..hi];
    FilterExtend(rows, lo, hi, keep);
  }

  /** What the corrected page sequence shows is exactly the filtered prefix
      fetched so far. */
  lemma {:induction false} PagesShowFetchedPrefix<T>(rows: seq<T>, keep: T -> bool, loads: nat)
    ensures Pages(rows, keep, loads).1 == Min(|rows|, (loads + 1) * PageSize)
    ensures Pages(rows, keep, loads).0 == Filter(rows[..Pages(rows, keep, loads).1], keep)
    decreases loads
  {
    PagesFetched(rows, keep, loads);
    if loads == 0 {
      assert Window(rows, 0) == rows[..Min(|rows|, PageSize)];
    } else {
      PagesShowFetchedPrefix(rows, keep, loads - 1);
      PagesStep(rows, keep, loads);
    }
  }

  /** One successful fetch with the corrected offset, in filter terms. */
  lemma CountedStep(s: PagedFeed, page: seq<Review>, f: Filters, append: bool)
    ensures ApplyFetchCounted(s, s.fetched, Rows(page), f, append).reviews ==
      (if append then s.reviews else []) + Kept(page, f)
    ensures ApplyFetchCounted(s, s.fetched, Rows(page), f, append).fetched == s.fetched + |page|
  {
    ByUniversityThenType(page, f);
    if !append {
      assert [] + Kept(page, f) == Kept(page, f);
    }
  }

  /** The corrected feed after `loads` further pages agrees with the page
      sequence for the filter's predicate. */
  predicate SessionAgrees(rows: seq<Review>, f: Filters, loads: nat) {
    Session(rows, f, loads).reviews == Pages(rows, KeepFn(f), loads).0 &&
    Session(rows, f, loads).fetched == Pages(rows, KeepFn(f), loads).1
  }

  lemma SessionFirst(rows: seq<Review>, f: Filters)
    ensures SessionAgrees(rows, f, 0)
  {
    CountedStep(PagedFeed([], 0, true, None), Window(rows, 0), f, false);
  }

  lemma SessionNext(rows: seq<Review>, f: Filters, loads: nat)
    requires loads > 0 && SessionAgrees(rows, f, loads - 1)
    ensures SessionAgrees(rows, f, loads)
  {
    var prev := Session(rows, f, loads - 1);
    CountedStep(prev, Window(rows, prev.fetched), f, true);
  }

  /** The feed with the corrected offset follows the generic page sequence
      for the filter's predicate. */
  lemma {:induction false} SessionIsPages(rows: seq<Review>, f: Filters, loads: nat)
    ensures Session(rows, f, loads).reviews == Pages(rows, KeepFn(f), loads).0
    ensures Session(rows, f, loads).fetched == Pages(rows, KeepFn(f), loads).1
  {
    var k := 0;
    SessionFirst(rows, f);
    while k < loads
      invariant k <= loads && SessionAgrees(rows, f, k)
    {
      SessionNext(rows, f, k + 1);
      k := k + 1;
    }
  }

  /** With the corrected offset the feed always shows exactly the kept
      reviews of the rows fetched so far, in order, one window further per
      load. */
  lemma SessionShowsFetchedPrefix(rows: seq<Review>, f: Filters, loads: nat)
    ensures Session(rows, f, loads).fetched == Min(|rows|, (loads + 1) * PageSize)
    ensures Session(rows, f, loads).reviews == Kept(rows[..Session(rows, f, loads).fetched], f)
  {
    SessionIsPages(rows, f, loads);
    PagesShowFetchedPrefix(rows, KeepFn(f), loads);
  }

  /** Hence no review is shown more often than the backend holds it. */
  lemma SessionNoRepeats(rows: seq<Review>, f: Filters, loads: nat)
    ensures multiset(Session(rows, f, loads).reviews) <= multiset(rows)
  {
    SessionShowsFetchedPrefix(rows, f, loads);
    FilterPrefixMultiset(rows, Session(rows, f, loads).fetched, KeepFn(f));
  }
}
