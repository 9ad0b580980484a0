/** The review record as the pages receive it from the backend, together
    with the small derived values several components compute identically:
    the three-rating mean, the admission-round table and the author's
    display name and avatar initial. */
module Reviews {
  import opened Options
  import opened Strings

  /** A rating chosen in the review form. */
  type Rating = r: int | 1 <= r <= 5 witness 1

  /** The author's profile row. */
  datatype Profile = Profile(fullName: Option<string>, email: Option<string>)

  /** The joined catalogue chain program -> department -> faculty ->
      university; every link may be missing. */
  datatype UniversityRef = UniversityRef(id: string, name: string)
  datatype FacultyRef = FacultyRef(name: string, university: Option<UniversityRef>)
  datatype DepartmentRef = DepartmentRef(name: string, faculty: Option<FacultyRef>)
  datatype ProgramRef = ProgramRef(id: string, name: string, department: Option<DepartmentRef>)

  /** One exam score as stored in a review's `scores` object, in key order. */
  datatype ScoreEntry = ScoreEntry(key: string, value: real)

  datatype Review = Review(
    id: string,
    userId: string,
    ratingAcademic: Rating,
    ratingSocial: Rating,
    ratingFacility: Rating,
    /** The database-computed `rating_total` column, kept opaque. */
    ratingTotal: Option<string>,
    comment: Option<string>,
    reviewType: Option<string>,
    admissionRound: Option<int>,
    projectName: Option<string>,
    scores: Option<seq<ScoreEntry>>,
    ratingSocialFriends: Option<int>,
    ratingCost: Option<int>,
    ratingFood: Option<int>,
    ratingEnvironment: Option<int>,
    ratingOverall: Option<int>,
    likes: Option<int>,
    dislikes: Option<int>,
    author: Option<Profile>,
    program: Option<ProgramRef>)

  /** `((a + s + f) / 3).toFixed(1)` as an integer number of tenths. The
      exact mean is a multiple of one third, so it is never halfway between
      two tenths and `toFixed`'s rounding direction on ties never matters. */
  function MeanTenths(academic: int, social: int, facility: int): (t: int)
    requires academic + social + facility >= 0
    ensures -1 <= 3 * t - 10 * (academic + social + facility) <= 1
  {
    (10 * (academic + social + facility) + 1) / 3
  }

  /** The printed mean is the only tenth within half a tenth of the exact
      mean, i.e. it is the correctly rounded value. */
  lemma MeanTenthsIsNearest(academic: int, social: int, facility: int, t: int)
    requires academic + social + facility >= 0
    requires 2 * (if 3 * t >= 10 * (academic + social + facility)
                  then 3 * t - 10 * (academic + social + facility)
                  else 10 * (academic + social + facility) - 3 * t) <= 3
    ensures t == MeanTenths(academic, social, facility)
  {
  }

  /** Ratings of 1 to 5 print a mean between 1.0 and 5.0. */
  lemma MeanTenthsBounds(academic: Rating, social: Rating, facility: Rating)
    ensures 10 <= MeanTenths(academic, social, facility) <= 50
  {
  }

  /** `programs?.departments?.faculties`: the review's faculty when the
      program, its department and the department's faculty are all
      present. */
  function FacultyOf(r: Review): (fac: Option<FacultyRef>)
    ensures fac.Some? <==> r.program.Some? && r.program.value.department.Some? &&
                           r.program.value.department.value.faculty.Some?
    ensures fac.Some? ==> fac.value == r.program.value.department.value.faculty.value
  {
    match r.program
    case None => None
    case Some(p) =>
      match p.department
      case None => None
      case Some(d) => d.faculty
  }

  /** `programs?.departments?.faculties?.universities`: the university at
      the end of the chain when every link is present. */
  function UniversityOf(r: Review): (u: Option<UniversityRef>)
    ensures u.Some? <==> FacultyOf(r).Some? && FacultyOf(r).value.university.Some?
    ensures u.Some? ==> u.value == r.program.value.department.value.faculty.value.university.value
  {
    match FacultyOf(r)
    case None => None
    case Some(fac) => fac.university
  }

  /** The mean every card and modal prints for a review. */
  function ReviewMeanTenths(r: Review): (t: int)
    ensures 10 <= t <= 50
    ensures -1 <= 3 * t - 10 * (r.ratingAcademic + r.ratingSocial + r.ratingFacility) <= 1
  {
    MeanTenthsBounds(r.ratingAcademic, r.ratingSocial, r.ratingFacility);
    MeanTenths(r.ratingAcademic, r.ratingSocial, r.ratingFacility)
  }

  /** The per-round badge configuration, looked up as
      `admission_round ? roundConfig[admission_round] : null`. */
  function RoundLabel(round: Option<int>): (config: Option<string>)
    ensures config.Some? <==> round.Some? && 1 <= round.value <= 4
  {
    match round
    case None => None
    case Some(n) =>
      if n == 1 then Some("Portfolio")
      else if n == 2 then Some("Quota")
      else if n == 3 then Some("Admission")
      else if n == 4 then Some("Direct")
      else None
  }

  /** Rounds 1, 2 and 4 are portfolio or project based. */
  predicate IsPortfolioRound(round: Option<int>) {
    round == Some(1) || round == Some(2) || round == Some(4)
  }

  /** Portfolio rounds are exactly the configured rounds other than 3. */
  lemma PortfolioRoundsAreConfigured(round: Option<int>)
    ensures IsPortfolioRound(round) <==> RoundLabel(round).Some? && round != Some(3)
  {
  }

  /** `profiles?.full_name || profiles?.email || fallback`. */
  function AuthorText(author: Option<Profile>, fallback: string): (s: string)
    ensures author.Some? && Truthy(author.value.fullName) ==> s == author.value.fullName.value
    ensures author.Some? && !Truthy(author.value.fullName) && Truthy(author.value.email) ==> s == author.value.email.value
    ensures (author.None? || (!Truthy(author.value.fullName) && !Truthy(author.value.email))) ==> s == fallback
  {
    match author
    case None => fallback
    case Some(p) => OrElse(p.fullName, OrElse(p.email, fallback))
  }

  const GenericUserName := "ผู้ใช้งานทั่วไป"

  /** The name shown for the author. */
  function DisplayName(author: Option<Profile>): string {
    AuthorText(author, GenericUserName)
  }

  /** `(full_name || email || 'U').charAt(0).toUpperCase()`. */
  function AvatarInitial(author: Option<Profile>): (c: char)
  {
    var s := AuthorText(author, "U");
    assert s != "" by {
      if author.Some? && Truthy(author.value.fullName) {
      } else if author.Some? && Truthy(author.value.email) {
      }
    }
    UpperChar(s[0])
  }

  /** The avatar initial is the upper-cased first character of the displayed
      name whenever the author has a name or an e-mail address, and 'U'
      for an anonymous author. */
  lemma AvatarMatchesDisplayName(author: Option<Profile>)
    ensures author.Some? && (Truthy(author.value.fullName) || Truthy(author.value.email)) ==>
      DisplayName(author) != "" && AvatarInitial(author) == UpperChar(DisplayName(author)[0])
    ensures author.None? || (!Truthy(author.value.fullName) && !Truthy(author.value.email)) ==>
      AvatarInitial(author) == 'U' && DisplayName(author) == GenericUserName
  {
  }
}
