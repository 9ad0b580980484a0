/** The review detail dialog: the printed mean, the round predicates, the
    owner-only delete control and flow, and the study-review rating
    fallbacks. */
module ReviewDetail {
  import opened Options
  import opened Reviews

  /** `avgRating`: the three-rating mean to one decimal, for admission and
      study reviews alike. */
  function AvgRating(r: Review): (t: int)
    ensures 10 <= t <= 50
    ensures -1 <= 3 * t - 10 * (r.ratingAcademic + r.ratingSocial + r.ratingFacility) <= 1
  {
    ReviewMeanTenths(r)
  }

  /** The mean ignores the review type and every study-specific rating. */
  lemma AvgRatingIgnoresType(r: Review, reviewType: Option<string>, overall: Option<int>)
    ensures AvgRating(r.(reviewType := reviewType, ratingOverall := overall)) == AvgRating(r)
  {
  }

  /** `isOwnReview && onDelete`: the delete button is shown only to a
      signed-in (non-empty) user whose id is the review's author id, and only
      when the caller supplied a delete handler. */
  function ShowDelete(currentUserId: Option<string>, r: Review, hasOnDelete: bool): (shown: bool)
    ensures shown <==> hasOnDelete && currentUserId == Some(r.userId) && r.userId != ""
  {
    currentUserId.Some? && currentUserId.value != "" && r.userId == currentUserId.value && hasOnDelete
  }

  datatype DeleteOutcome = Ignored | Closed | Alerted

  /** `handleDelete`: nothing happens without a handler or confirmation;
      otherwise the dialog closes on success and alerts on failure. */
  function DeleteFlow(hasOnDelete: bool, confirmed: bool, succeeded: bool): (o: DeleteOutcome)
    ensures o == Closed <==> hasOnDelete && confirmed && succeeded
    ensures o == Alerted <==> hasOnDelete && confirmed && !succeeded
  {
    if !hasOnDelete || !confirmed then Ignored
    else if succeeded then Closed
    else Alerted
  }

  /** `x || legacy` for a study rating: absent and 0 both fall back. */
  function StudyRating(x: Option<int>, legacy: int): (shown: int)
    ensures x.Some? && x.value != 0 ==> shown == x.value
    ensures x.None? || x.value == 0 ==> shown == legacy
  {
    if x.Some? && x.value != 0 then x.value else legacy
  }

  datatype Shown = Value(n: int) | Dash

  /** `x || '-'` for the cost and food ratings, which have no legacy column. */
  function RatingOrDash(x: Option<int>): (shown: Shown)
    ensures shown.Value? <==> x.Some? && x.value != 0
    ensures shown.Value? ==> shown.n == x.value
  {
    if x.Some? && x.value != 0 then Value(x.value) else Dash
  }

  /** The five tiles of a study review's rating breakdown. */
  datatype StudyBreakdown = StudyBreakdown(social: int, cost: Shown, food: Shown, environment: int, overall: int)

  function StudyRatings(r: Review): (b: StudyBreakdown)
    ensures b.social == StudyRating(r.ratingSocialFriends, r.ratingSocial)
    ensures b.environment == StudyRating(r.ratingEnvironment, r.ratingFacility)
    ensures b.overall == StudyRating(r.ratingOverall, r.ratingAcademic)
  {
    StudyBreakdown(
      StudyRating(r.ratingSocialFriends, r.ratingSocial),
      RatingOrDash(r.ratingCost),
      RatingOrDash(r.ratingFood),
      StudyRating(r.ratingEnvironment, r.ratingFacility),
      StudyRating(r.ratingOverall, r.ratingAcademic))
  }

  /** A study review stores its overall, friends and environment ratings in
      the academic, social and facility columns too; for such a review the
      breakdown shows the same numbers whether or not the study columns came
      back from the backend. */
  lemma StudyFallbackConsistent(r: Review)
    requires r.ratingOverall.None? || r.ratingOverall == Some(r.ratingAcademic as int)
    requires r.ratingSocialFriends.None? || r.ratingSocialFriends == Some(r.ratingSocial as int)
    requires r.ratingEnvironment.None? || r.ratingEnvironment == Some(r.ratingFacility as int)
    ensures StudyRatings(r).overall == r.ratingAcademic
    ensures StudyRatings(r).social == r.ratingSocial
    ensures StudyRatings(r).environment == r.ratingFacility
  {
  }
}
