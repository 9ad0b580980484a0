/** The global search box: fuzzy matching of names against the query,
    a four-level match score, a stable two-key ranking capped at fifteen
    results, the most-recently-used list of queries and keyboard selection. */
module Search {
  import opened Options
  import opened Seqs
  import opened Strings

  const MinQueryLength := 2
  const MaxResults := 15
  const MaxRecent := 5

  /** The query, lowered, occurs in order (not necessarily contiguously) in
      the lowered text. */
  predicate Matches(text: string, query: string) {
    IsSubsequence(Lower(query), Lower(text))
  }

  /** `fuzzyMatch`: a substring shortcut followed by a greedy left-to-right
      scan of the text that advances through the query on each equal
      character. */
  method FuzzyMatch(text: string, query: string) returns (found: bool)
    ensures found <==> Matches(text, query)
  {
    var textLower := Lower(text);
    var queryLower := Lower(query);
    if Contains(textLower, queryLower) {
      ContainsIsSubsequence(textLower, queryLower);
      return true;
    }
    var queryIndex := 0;
    var i := 0;
    while i < |textLower| && queryIndex < |queryLower|
      invariant 0 <= i <= |textLower|
      invariant 0 <= queryIndex <= |queryLower|
      invariant IsSubsequence(queryLower, textLower) <==>
                IsSubsequence(queryLower[queryIndex..], textLower[i..])
    {
      if textLower[i] == queryLower[queryIndex] {
        SubsequenceGreedy(queryLower[queryIndex..], textLower[i..]);
        assert queryLower[queryIndex..][1..] == queryLower[queryIndex + 1..];
        queryIndex := queryIndex + 1;
      }
      assert textLower[i..][1..] == textLower[i + 1..];
      i := i + 1;
    }
    found := queryIndex == |queryLower|;
  }

  /** `getMatchScore`: 100 for equal, 90 for a proper prefix, 70 for an
      inner substring and 50 for everything else, whether or not the name
      matches fuzzily. */
  function MatchScore(name: string, query: string): (score: int)
    ensures score == 100 || score == 90 || score == 70 || score == 50
    ensures score == 100 <==> Lower(name) == Lower(query)
    ensures score == 90 <==> Lower(query) <= Lower(name) && Lower(name) != Lower(query)
    ensures score == 70 <==> Contains(Lower(name), Lower(query)) && !(Lower(query) <= Lower(name))
    ensures score == 50 <==> !Contains(Lower(name), Lower(query))
  {
    var n := Lower(name);
    var q := Lower(query);
    if n == q then 100
    else if q <= n then 90
    else if Contains(n, q) then 70
    else 50
  }

  /** Every score above 50 implies a fuzzy match; 50 says nothing. */
  lemma HighScoreMatches(name: string, query: string)
    requires MatchScore(name, query) > 50
    ensures Matches(name, query)
  {
    ContainsIsSubsequence(Lower(name), Lower(query));
  }

  datatype Kind = UniversityKind | FacultyKind | ProgramKind

  /** A fetched university, faculty or program row. `universityId` is the
      owning university of a faculty and is unused for the other kinds. */
  datatype Row = Row(id: string, nameTh: string, nameEn: Option<string>, universityId: string)

  /** A search result: the kind and the row it was built from. Its displayed
      name is `row.nameTh`. */
  datatype Hit = Hit(kind: Kind, row: Row)

  datatype Route = UniversityPage(id: string) | ProgramPage(id: string)

  /** Where a result links to: a university or a program opens its own
      page, a faculty opens its university's page. */
  function RouteOf(h: Hit): (route: Route)
    ensures h.kind == ProgramKind <==> route.ProgramPage?
    ensures h.kind == UniversityKind ==> route == UniversityPage(h.row.id)
    ensures h.kind == FacultyKind ==> route == UniversityPage(h.row.universityId)
    ensures h.kind == ProgramKind ==> route == ProgramPage(h.row.id)
  {
    match h.kind
    case UniversityKind => UniversityPage(h.row.id)
    case FacultyKind => UniversityPage(h.row.universityId)
    case ProgramKind => ProgramPage(h.row.id)
  }

  function Priority(k: Kind): int {
    match k
    case UniversityKind => 3
    case FacultyKind => 2
    case ProgramKind => 1
  }

  /** A row is a candidate when its Thai name matches, or its English name is
      present, non-empty and matches. */
  predicate IsCandidate(r: Row, query: string) {
    Matches(r.nameTh, query) || (Truthy(r.nameEn) && Matches(r.nameEn.value, query))
  }

  /** The candidates among `rows`, tagged with `kind`, in fetch order. */
  function Tag(rows: seq<Row>, kind: Kind, query: string): (hits: seq<Hit>)
    ensures AllOf(hits, kind, rows)
    ensures forall i :: 0 <= i < |hits| ==> IsCandidate(hits[i].row, query)
    ensures forall i :: 0 <= i < |rows| ==> (Hit(kind, rows[i]) in hits <==> IsCandidate(rows[i], query))
  {
    if |rows| == 0 then []
    else (if IsCandidate(rows[0], query) then [Hit(kind, rows[0])] else []) + Tag(rows[1..], kind, query)
  }

  /** Every fetched row, tagged with `kind`, in fetch order. */
  function HitsOf(rows: seq<Row>, kind: Kind): (hits: seq<Hit>)
    ensures |hits| == |rows|
    ensures forall i :: 0 <= i < |rows| ==> hits[i] == Hit(kind, rows[i])
  {
    if |rows| == 0 then [] else [Hit(kind, rows[0])] + HitsOf(rows[1..], kind)
  }

  /** The `if` guard of the `forEach` bodies, as a predicate on hits. */
  function CandidateFn(query: string): Hit -> bool {
    (h: Hit) => IsCandidate(h.row, query)
  }

  /** `forEach` with a guarded `push` keeps exactly the matching rows, in
      fetch order: tagging is a filter of the tagged rows, and so an ordered
      sub-sequence of them. */
  lemma {:induction false} TagIsFilter(rows: seq<Row>, kind: Kind, query: string)
    ensures Tag(rows, kind, query) == Filter(HitsOf(rows, kind), CandidateFn(query))
    ensures IsSubsequence(Tag(rows, kind, query), HitsOf(rows, kind))
  {
    if |rows| > 0 {
      TagIsFilter(rows[1..], kind, query);
      assert HitsOf(rows, kind)[1..] == HitsOf(rows[1..], kind);
    }
    FilterIsSubsequence(HitsOf(rows, kind), CandidateFn(query));
  }

  function KindOrder(k: Kind): int {
    match k
    case UniversityKind => 0
    case FacultyKind => 1
    case ProgramKind => 2
  }

  /** The unsorted results: matching universities, then faculties, then
      programs, each group in fetch order. */
  function Candidates(unis: seq<Row>, facs: seq<Row>, progs: seq<Row>, query: string): (hits: seq<Hit>)
    ensures forall i :: 0 <= i < |hits| ==> IsCandidate(hits[i].row, query)
    ensures forall i :: 0 <= i < |unis| ==> (Hit(UniversityKind, unis[i]) in hits <==> IsCandidate(unis[i], query))
    ensures forall i :: 0 <= i < |facs| ==> (Hit(FacultyKind, facs[i]) in hits <==> IsCandidate(facs[i], query))
    ensures forall i :: 0 <= i < |progs| ==> (Hit(ProgramKind, progs[i]) in hits <==> IsCandidate(progs[i], query))
  {
    Tag(unis, UniversityKind, query) + Tag(facs, FacultyKind, query) + Tag(progs, ProgramKind, query)
  }

  /** Hits of one kind built from one row list. */
  predicate AllOf(hits: seq<Hit>, kind: Kind, rows: seq<Row>) {
    forall i :: 0 <= i < |hits| ==> hits[i].kind == kind && hits[i].row in rows
  }

  /** Each candidate's row comes from the list of its own kind. */
  predicate FromOwnList(hits: seq<Hit>, unis: seq<Row>, facs: seq<Row>, progs: seq<Row>) {
    forall i :: 0 <= i < |hits| ==>
      (hits[i].kind == UniversityKind ==> hits[i].row in unis) &&
      (hits[i].kind == FacultyKind ==> hits[i].row in facs) &&
      (hits[i].kind == ProgramKind ==> hits[i].row in progs)
  }

  /** Kinds appear grouped: universities, then faculties, then programs. */
  predicate GroupedByKind(hits: seq<Hit>) {
    forall i, j :: 0 <= i < j < |hits| ==> KindOrder(hits[i].kind) <= KindOrder(hits[j].kind)
  }

  lemma ThreeGroups(u: seq<Hit>, f: seq<Hit>, p: seq<Hit>, unis: seq<Row>, facs: seq<Row>, progs: seq<Row>)
    requires AllOf(u, UniversityKind, unis) && AllOf(f, FacultyKind, facs) && AllOf(p, ProgramKind, progs)
    ensures FromOwnList(u + f + p, unis, facs, progs)
    ensures GroupedByKind(u + f + p)
  {
    var hits := u + f + p;
    forall i | 0 <= i < |hits|
      ensures hits[i].kind == UniversityKind ==> hits[i].row in unis
      ensures hits[i].kind == FacultyKind ==> hits[i].row in facs
      ensures hits[i].kind == ProgramKind ==> hits[i].row in progs
      ensures KindOrder(hits[i].kind) == (if i < |u| then 0 else if i < |u| + |f| then 1 else 2)
    {
      if i < |u| {
        assert hits[i] == u[i];
      } else if i < |u| + |f| {
        assert hits[i] == f[i - |u|];
      } else {
        assert hits[i] == p[i - |u| - |f|];
      }
    }
  }

  /** Each candidate comes from the row list of its own kind, and the kinds
      appear grouped in fetch order of the three lists. */
  lemma CandidatesGrouped(unis: seq<Row>, facs: seq<Row>, progs: seq<Row>, query: string)
    ensures FromOwnList(Candidates(unis, facs, progs, query), unis, facs, progs)
    ensures GroupedByKind(Candidates(unis, facs, progs, query))
  {
    ThreeGroups(Tag(unis, UniversityKind, query), Tag(facs, FacultyKind, query), Tag(progs, ProgramKind, query),
                unis, facs, progs);
  }

  function Score(h: Hit, query: string): int {
    MatchScore(h.row.nameTh, query)
  }

  /** The sort comparator returns a positive number for `(b, a)`: `a` has
      the higher score, or the same score and a higher kind priority. */
  predicate Outranks(a: Hit, b: Hit, query: string) {
    Score(a, query) > Score(b, query) ||
    (Score(a, query) == Score(b, query) && Priority(a.kind) > Priority(b.kind))
  }

  predicate Ranked(hits: seq<Hit>, query: string) {
    forall i, j :: 0 <= i < j < |hits| ==> !Outranks(hits[j], hits[i], query)
  }

  /** Inserts `h` before the first element that does not outrank it, which
      is before any element of equal rank. Ties keep their original order
      because `RankSort` inserts the elements from right to left, so an
      earlier element lands in front of its later equals. */
  function Insert(h: Hit, hits: seq<Hit>, query: string): (r: seq<Hit>)
    ensures multiset(r) == multiset(hits) + multiset{h}
  {
    if |hits| == 0 || !Outranks(hits[0], h, query) then
      [h] + hits
    else
      assert hits == [hits[0]] + hits[1..];
      [hits[0]] + Insert(h, hits[1..], query)
  }

  /** `!Outranks` is transitive: ranks form a total preorder. */
  lemma NotOutranksTransitive(a: Hit, b: Hit, c: Hit, query: string)
    requires !Outranks(a, b, query) && !Outranks(b, c, query)
    ensures !Outranks(a, c, query)
  {
  }

  lemma {:induction false} InsertRanked(h: Hit, hits: seq<Hit>, query: string)
    requires Ranked(hits, query)
    ensures Ranked(Insert(h, hits, query), query)
  {
    var r := Insert(h, hits, query);
    if |hits| == 0 || !Outranks(hits[0], h, query) {
      forall i, j | 0 <= i < j < |r|
        ensures !Outranks(r[j], r[i], query)
      {
        if i == 0 && j > 1 {
          NotOutranksTransitive(hits[j - 1], hits[0], h, query);
        }
      }
    } else {
      var rest := Insert(h, hits[1..], query);
      InsertRanked(h, hits[1..], query);
      forall i, j | 0 <= i < j < |r|
        ensures !Outranks(r[j], r[i], query)
      {
        if i == 0 {
          assert r[j] in multiset(hits[1..]) + multiset{h} by {
            assert r[j] == rest[j - 1];
            assert rest[j - 1] in multiset(rest);
          }
          if r[j] != h {
            assert r[j] in hits[1..];
          }
        }
      }
    }
  }

  /** The stable sort of `performSearch`. */
  function RankSort(hits: seq<Hit>, query: string): (r: seq<Hit>)
    ensures multiset(r) == multiset(hits)
    ensures Ranked(r, query)
  {
    if |hits| == 0 then []
    else
      assert hits == [hits[0]] + hits[1..];
      InsertRanked(hits[0], RankSort(hits[1..], query), query);
      Insert(hits[0], RankSort(hits[1..], query), query)
  }

  /** The hits whose score is `score` and whose kind priority is
      `priority`, in order. */
  function Tier(hits: seq<Hit>, score: int, priority: int, query: string): seq<Hit> {
    if |hits| == 0 then []
    else if Score(hits[0], query) == score && Priority(hits[0].kind) == priority then
      [hits[0]] + Tier(hits[1..], score, priority, query)
    else Tier(hits[1..], score, priority, query)
  }

  lemma {:induction false} InsertTier(h: Hit, hits: seq<Hit>, score: int, priority: int, query: string)
    ensures Tier(Insert(h, hits, query), score, priority, query) ==
      (if Score(h, query) == score && Priority(h.kind) == priority then [h] else []) + Tier(hits, score, priority, query)
  {
    if |hits| == 0 || !Outranks(hits[0], h, query) {
      assert ([h] + hits)[1..] == hits;
    } else {
      InsertTier(h, hits[1..], score, priority, query);
      assert ([hits[0]] + Insert(h, hits[1..], query))[1..] == Insert(h, hits[1..], query);
    }
  }

  /** Stability: hits of equal rank keep their original relative order. */
  lemma {:induction false} RankSortStable(hits: seq<Hit>, score: int, priority: int, query: string)
    ensures Tier(RankSort(hits, query), score, priority, query) == Tier(hits, score, priority, query)
  {
    if |hits| > 0 {
      RankSortStable(hits[1..], score, priority, query);
      InsertTier(hits[0], RankSort(hits[1..], query), score, priority, query);
    }
  }

  /** `performSearch`: nothing for a query shorter than two characters,
      otherwise the first fifteen ranked candidates. */
  function PerformSearch(query: string, unis: seq<Row>, facs: seq<Row>, progs: seq<Row>): (results: seq<Hit>)
    ensures |query| < MinQueryLength ==> results == []
    ensures |query| >= MinQueryLength ==>
      |results| == Min(MaxResults, |Candidates(unis, facs, progs, query)|) &&
      results <= RankSort(Candidates(unis, facs, progs, query), query)
    ensures forall i :: 0 <= i < |results| ==> IsCandidate(results[i].row, query)
    ensures forall i, j :: 0 <= i < j < |results| ==>
      Score(results[i], query) >= Score(results[j], query) &&
      (Score(results[i], query) == Score(results[j], query) ==>
         Priority(results[i].kind) >= Priority(results[j].kind))
  {
    if |query| < MinQueryLength then []
    else
      var candidates := Candidates(unis, facs, progs, query);
      TopRanked(candidates, query);
      TopAreCandidates(candidates, query);
      Take(RankSort(candidates, query), MaxResults)
  }

  /** The first fifteen of the sorted hits number min(15, n) and come in
      descending score, ties in descending kind priority. */
  lemma TopRanked(hits: seq<Hit>, query: string)
    ensures |Take(RankSort(hits, query), MaxResults)| == Min(MaxResults, |hits|)
    ensures var shown := Take(RankSort(hits, query), MaxResults);
      forall i, j :: 0 <= i < j < |shown| ==>
        Score(shown[i], query) >= Score(shown[j], query) &&
        (Score(shown[i], query) == Score(shown[j], query) ==> Priority(shown[i].kind) >= Priority(shown[j].kind))
  {
    var sorted := RankSort(hits, query);
    var shown := Take(sorted, MaxResults);
    assert |multiset(sorted)| == |multiset(hits)|;
    forall i, j | 0 <= i < j < |shown|
      ensures Score(shown[i], query) >= Score(shown[j], query)
      ensures Score(shown[i], query) == Score(shown[j], query) ==> Priority(shown[i].kind) >= Priority(shown[j].kind)
    {
      assert shown[i] == sorted[i] && shown[j] == sorted[j];
      assert !Outranks(sorted[j], sorted[i], query);
    }
  }

  /** Sorting and cutting off keep only hits of the input: the shown
      results of candidate hits are candidates. */
  lemma TopAreCandidates(hits: seq<Hit>, query: string)
    requires forall i :: 0 <= i < |hits| ==> IsCandidate(hits[i].row, query)
    ensures var shown := Take(RankSort(hits, query), MaxResults);
      forall i :: 0 <= i < |shown| ==> IsCandidate(shown[i].row, query)
  {
    var sorted := RankSort(hits, query);
    var shown := Take(sorted, MaxResults);
    forall i | 0 <= i < |shown|
      ensures IsCandidate(shown[i].row, query)
    {
      assert shown[i] == sorted[i];
      assert sorted[i] in multiset(hits);
      var k :| 0 <= k < |hits| && hits[k] == sorted[i];
    }
  }

  /** No candidate left out of the fifteen outranks a shown result. */
  lemma CutOffKeepsBest(query: string, unis: seq<Row>, facs: seq<Row>, progs: seq<Row>)
    requires |query| >= MinQueryLength
    ensures var shown := PerformSearch(query, unis, facs, progs);
      var sorted := RankSort(Candidates(unis, facs, progs, query), query);
      forall i, j :: 0 <= i < |shown| <= j < |sorted| ==> !Outranks(sorted[j], shown[i], query)
  {
  }

  /** The predicate `s => s !== search`. */
  function IsNot(search: string): string -> bool {
    s => s != search
  }

  /** `saveRecentSearch` helper: `recent.filter(s => s !== search)`, every
      other entry kept as often as it occurs. */
  function Without(recent: seq<string>, search: string): (r: seq<string>)
    ensures r == Filter(recent, IsNot(search))
    ensures search !in r
    ensures forall i :: 0 <= i < |recent| && recent[i] != search ==> recent[i] in r
    ensures forall i :: 0 <= i < |r| ==> r[i] in recent
  {
    if |recent| == 0 then []
    else if recent[0] == search then Without(recent[1..], search)
    else [recent[0]] + Without(recent[1..], search)
  }

  /** `[search, ...recent.filter(s => s !== search)].slice(0, 5)`. */
  function SaveRecent(search: string, recent: seq<string>): (updated: seq<string>)
    ensures 1 <= |updated| <= MaxRecent
    ensures updated[0] == search
    ensures search !in updated[1..]
    ensures updated[1..] <= Without(recent, search)
    ensures |updated| == Min(MaxRecent, 1 + |Without(recent, search)|)
  {
    Take([search] + Without(recent, search), MaxRecent)
  }

  lemma {:induction false} WithoutIsSubsequence(recent: seq<string>, search: string)
    ensures IsSubsequence(Without(recent, search), recent)
  {
    if |recent| > 0 {
      WithoutIsSubsequence(recent[1..], search);
      if recent[0] == search && |Without(recent, search)| > 0 {
        assert IsSubsequence(Without(recent, search), recent[1..]);
      }
    }
  }

  lemma {:induction false} SubsequenceOfPrefix(a: seq<string>, b: seq<string>, c: seq<string>)
    requires a <= b && IsSubsequence(b, c)
    ensures IsSubsequence(a, c)
    decreases |c|
  {
    if |a| > 0 {
      if b[0] == c[0] && IsSubsequence(b[1..], c[1..]) {
        SubsequenceOfPrefix(a[1..], b[1..], c[1..]);
      } else {
        SubsequenceOfPrefix(a, b, c[1..]);
      }
    }
  }

  /** The entries kept behind the new query are earlier entries in their
      earlier relative order. */
  lemma SaveRecentKeepsOrder(search: string, recent: seq<string>)
    ensures IsSubsequence(SaveRecent(search, recent)[1..], recent)
  {
    WithoutIsSubsequence(recent, search);
    SubsequenceOfPrefix(SaveRecent(search, recent)[1..], Without(recent, search), recent);
  }

  lemma {:induction false} WithoutPrefix(s: seq<string>, search: string)
    requires search !in s
    ensures Without(s, search) == s
  {
    if |s| > 0 {
      WithoutPrefix(s[1..], search);
    }
  }

  /** Selecting the same query twice leaves the same list as selecting it
      once. */
  lemma SaveRecentIdempotent(search: string, recent: seq<string>)
    ensures SaveRecent(search, SaveRecent(search, recent)) == SaveRecent(search, recent)
  {
    var once := SaveRecent(search, recent);
    assert once == [search] + once[1..];
    WithoutPrefix(once[1..], search);
    assert Without(once, search) == once[1..];
  }

  datatype Key = ArrowDown | ArrowUp | Enter | Escape | OtherKey

  /** The dropdown's state: the typed query, the shown results, the
      highlighted index (-1 for none), whether it is open and the recent
      queries. */
  datatype Dropdown = Dropdown(query: string, results: seq<Hit>, selected: int, open: bool, recent: seq<string>)

  datatype KeyOutcome = KeyOutcome(next: Dropdown, navigate: Option<Route>)

  predicate SelectionInRange(d: Dropdown) {
    -1 <= d.selected <= |d.results| - 1
  }

  /** `handleKeyDown`. Enter navigates to the highlighted result, recording
      the query, only when the index names an existing result. */
  function HandleKey(d: Dropdown, key: Key): (o: KeyOutcome)
    ensures key == ArrowDown ==> o.next.selected <= |d.results| - 1
    ensures key == ArrowUp ==> o.next.selected >= -1
    ensures SelectionInRange(d) ==> SelectionInRange(o.next)
    ensures o.navigate.Some? <==> key == Enter && 0 <= d.selected < |d.results|
    ensures o.navigate.Some? ==>
      o.navigate.value == RouteOf(d.results[d.selected]) && o.next.recent == SaveRecent(d.query, d.recent)
    ensures o.navigate.None? ==> o.next.recent == d.recent
    ensures o.next.open == (d.open && key != Escape)
    ensures o.next.query == d.query && o.next.results == d.results
  {
    match key
    case ArrowDown => KeyOutcome(d.(selected := Min(d.selected + 1, |d.results| - 1)), None)
    case ArrowUp => KeyOutcome(d.(selected := if d.selected - 1 >= -1 then d.selected - 1 else -1), None)
    case Enter =>
      if 0 <= d.selected < |d.results| then
        KeyOutcome(d.(recent := SaveRecent(d.query, d.recent)), Some(RouteOf(d.results[d.selected])))
      else KeyOutcome(d, None)
    case Escape => KeyOutcome(d.(open := false), None)
    case OtherKey => KeyOutcome(d, None)
  }

  /** Typing replaces the query, opens the dropdown and clears the
      highlight: Enter then opens nothing until an arrow key picks a result,
      and the first ArrowDown highlights the top result. */
  function Type(d: Dropdown, query: string): (next: Dropdown)
    ensures next.query == query && next.open && next.selected == -1
    ensures next.results == d.results && next.recent == d.recent
    ensures SelectionInRange(next)
    ensures HandleKey(next, Enter).navigate.None?
    ensures HandleKey(next, ArrowDown).next.selected == (if |d.results| > 0 then 0 else -1)
  {
    d.(query := query, open := true, selected := -1)
  }

  /** Clicking a result follows its link, records the query and closes
      the dropdown; the Enter key reaches the same place. */
  function ClickResult(d: Dropdown, i: int): (o: KeyOutcome)
    requires 0 <= i < |d.results|
    ensures o.navigate == Some(RouteOf(d.results[i]))
    ensures o.next.recent == SaveRecent(d.query, d.recent) && !o.next.open
    ensures d.selected == i ==> o.navigate == HandleKey(d, Enter).navigate && o.next.recent == HandleKey(d, Enter).next.recent
  {
    KeyOutcome(d.(recent := SaveRecent(d.query, d.recent), open := false), Some(RouteOf(d.results[i])))
  }

  /** The clear button empties the query and the results but leaves the
      highlighted index as it was; Enter then finds no result to open. */
  function ClearQuery(d: Dropdown): (next: Dropdown)
    ensures next.query == "" && next.results == [] && next.selected == d.selected
    ensures HandleKey(next, Enter).navigate.None?
  {
    d.(query := "", results := [])
  }

  function HandleKeys(d: Dropdown, keys: seq<Key>): Dropdown
    decreases |keys|
  {
    if |keys| == 0 then d else HandleKeys(HandleKey(d, keys[0]).next, keys[1..])
  }

  /** After typing, no sequence of key presses moves the highlight outside
      [-1, results - 1]. */
  lemma {:induction false} KeysKeepSelection(d: Dropdown, keys: seq<Key>)
    requires SelectionInRange(d)
    ensures SelectionInRange(HandleKeys(d, keys))
    decreases |keys|
  {
    if |keys| > 0 {
      KeysKeepSelection(HandleKey(d, keys[0]).next, keys[1..]);
    }
  }
}
