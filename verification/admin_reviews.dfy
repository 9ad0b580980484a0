/** The administrator's review list: the free-text search over comment,
    program name and university name, deletion, and the text shown on each
    card. */
module AdminReviews {
  import opened Options
  import opened Seqs
  import opened Strings
  import opened Reviews

  /** `programs?.departments?.faculties?.universities?.name_th`. */
  function UniversityName(r: Review): (name: Option<string>)
    ensures name.Some? <==> (r.program.Some? && r.program.value.department.Some? &&
                             r.program.value.department.value.faculty.Some? &&
                             r.program.value.department.value.faculty.value.university.Some?)
    ensures name.Some? ==> name.value == r.program.value.department.value.faculty.value.university.value.name
  {
    match UniversityOf(r)
    case None => None
    case Some(u) => Some(u.name)
  }

  function ProgramName(r: Review): Option<string> {
    match r.program
    case None => None
    case Some(p) => Some(p.name)
  }

  /** `field?.toLowerCase().includes(search.toLowerCase())`: a missing
      field never matches. */
  predicate FieldMatches(field: Option<string>, search: string) {
    field.Some? && Contains(Lower(field.value), Lower(search))
  }

  predicate SearchMatches(r: Review, search: string) {
    FieldMatches(r.comment, search) || FieldMatches(ProgramName(r), search) ||
    FieldMatches(UniversityName(r), search)
  }

  /** `filteredReviews`. */
  function FilterReviews(reviews: seq<Review>, search: string): (shown: seq<Review>)
    ensures forall i :: 0 <= i < |shown| ==> shown[i] in reviews && SearchMatches(shown[i], search)
    ensures forall i :: 0 <= i < |reviews| && SearchMatches(reviews[i], search) ==> reviews[i] in shown
  {
    var matches := (r: Review) => SearchMatches(r, search);
    FilterMembers(reviews, matches);
    Filter(reviews, matches)
  }

  /** The search keeps the list's newest-first order. */
  lemma FilterReviewsKeepsOrder(reviews: seq<Review>, search: string)
    ensures IsSubsequence(FilterReviews(reviews, search), reviews)
  {
    FilterIsSubsequence(reviews, r => SearchMatches(r, search));
  }

  lemma ContainsEmpty(s: string)
    ensures Contains(s, "")
  {
  }

  /** With an empty search every review that has a comment or a program is
      listed; one with neither is hidden even then. */
  lemma EmptySearch(r: Review)
    ensures SearchMatches(r, "") <==> r.comment.Some? || r.program.Some?
  {
    assert Lower("") == "";
    if r.comment.Some? {
      ContainsEmpty(Lower(r.comment.value));
    }
    if r.program.Some? {
      ContainsEmpty(Lower(r.program.value.name));
    }
  }

  /** Typing more narrows the list: every review matching a longer search
      also matches any prefix of it. */
  lemma LongerSearchNarrows(r: Review, search: string, more: string)
    requires SearchMatches(r, search + more)
    ensures SearchMatches(r, search)
  {
    LowerConcat(search, more);
    if FieldMatches(r.comment, search + more) {
      ContainsPrefix(Lower(r.comment.value), Lower(search), Lower(more));
    } else if FieldMatches(ProgramName(r), search + more) {
      ContainsPrefix(Lower(ProgramName(r).value), Lower(search), Lower(more));
    } else {
      ContainsPrefix(Lower(UniversityName(r).value), Lower(search), Lower(more));
    }
  }

  /** The answer to the confirmation and the backend's reply. */
  datatype DeleteOutcome = Cancelled | Failed(message: string) | Deleted

  datatype AfterDelete = AfterDelete(reviews: seq<Review>, alert: Option<string>)

  /** `handleDelete`: a cancelled or failed deletion leaves the list alone
      (a failure alerts); a successful one drops every review with that id. */
  function HandleDelete(reviews: seq<Review>, id: string, outcome: DeleteOutcome): (after: AfterDelete)
    ensures !outcome.Deleted? ==> after.reviews == reviews
    ensures after.alert.Some? <==> outcome.Failed?
    ensures outcome.Failed? ==> after.alert == Some("ลบไม่สำเร็จ: " + outcome.message)
    ensures outcome.Deleted? ==> forall i :: 0 <= i < |after.reviews| ==> after.reviews[i].id != id && after.reviews[i] in reviews
    ensures outcome.Deleted? ==> forall i :: 0 <= i < |reviews| && reviews[i].id != id ==> reviews[i] in after.reviews
  {
    match outcome
    case Cancelled => AfterDelete(reviews, None)
    case Failed(message) => AfterDelete(reviews, Some("ลบไม่สำเร็จ: " + message))
    case Deleted =>
      var keep := (r: Review) => r.id != id;
      FilterMembers(reviews, keep);
      AfterDelete(Filter(reviews, keep), None)
  }

  /** Deleting keeps the remaining reviews in order, and deleting the same
      review again changes nothing. */
  lemma DeleteKeepsOrderAndIsIdempotent(reviews: seq<Review>, id: string)
    ensures IsSubsequence(HandleDelete(reviews, id, Deleted).reviews, reviews)
    ensures var once := HandleDelete(reviews, id, Deleted).reviews;
      HandleDelete(once, id, Deleted).reviews == once
  {
    var keep := (r: Review) => r.id != id;
    FilterIsSubsequence(reviews, keep);
    FilterTwice(reviews, keep, keep, keep);
  }

  const UnknownUniversity := "ไม่ระบุ"
  const UnknownProgram := "ไม่ระบุหลักสูตร"
  const NoComment := "ไม่มีความคิดเห็น"

  /** What one admin card prints besides the raw ratings. */
  datatype AdminCard = AdminCard(meanTenths: int, university: string, program: string, comment: string)

  function Card(r: Review): (card: AdminCard)
    ensures 10 <= card.meanTenths <= 50
    ensures -1 <= 3 * card.meanTenths - 10 * (r.ratingAcademic + r.ratingSocial + r.ratingFacility) <= 1
    ensures card.university == (if Truthy(UniversityName(r)) then UniversityName(r).value else UnknownUniversity)
    ensures card.program == (if r.program.Some? && r.program.value.name != "" then r.program.value.name else UnknownProgram)
    ensures card.comment == (if Truthy(r.comment) then r.comment.value else NoComment)
  {
    AdminCard(ReviewMeanTenths(r), OrElse(UniversityName(r), UnknownUniversity),
              OrElse(ProgramName(r), UnknownProgram), OrElse(r.comment, NoComment))
  }
}
