/** The review card in the feed: the round strip and badge, the author,
    the mean rating, the project preview for portfolio rounds and the
    score preview for the admission round. */
module ReviewCard {
  import opened Options
  import opened Seqs
  import opened Strings
  import opened Reviews

  const PreviewCount := 3

  /** `Object.entries(scores).slice(0, 3)`, or nothing without scores. */
  function PreviewScores(scores: Option<seq<ScoreEntry>>): (preview: seq<ScoreEntry>)
    ensures scores.None? ==> preview == []
    ensures scores.Some? ==> |preview| == Min(PreviewCount, |scores.value|) && preview <= scores.value
  {
    match scores
    case None => []
    case Some(entries) => Take(entries, PreviewCount)
  }

  /** The "+N more" count: present only past three scores. */
  function MoreCount(scores: Option<seq<ScoreEntry>>): (more: Option<int>)
    ensures more.Some? <==> scores.Some? && |scores.value| > PreviewCount
    ensures more.Some? ==> more.value > 0
  {
    var n := if scores.Some? then |scores.value| else 0;
    if n > PreviewCount then Some(n - PreviewCount) else None
  }

  /** The preview and the "+N" count together account for every score. */
  lemma PreviewAndMoreCoverAll(scores: Option<seq<ScoreEntry>>)
    ensures |PreviewScores(scores)| + MoreCount(scores).GetOr(0) == (if scores.Some? then |scores.value| else 0)
  {
  }

  /** The project box of rounds 1, 2 and 4. */
  datatype ProjectPanel = ProjectPanel(heading: string, projectName: string)

  const DirectProjectHeading := "โครงการรับตรง"
  const ProjectHeading := "โครงการ"

  function ProjectPreview(r: Review): (panel: Option<ProjectPanel>)
    ensures panel.Some? <==> IsPortfolioRound(r.admissionRound) && Truthy(r.projectName)
    ensures panel.Some? ==> panel.value.projectName == r.projectName.value
    ensures panel.Some? ==> (panel.value.heading == DirectProjectHeading <==> r.admissionRound == Some(4))
  {
    if IsPortfolioRound(r.admissionRound) && Truthy(r.projectName) then
      Some(ProjectPanel(if r.admissionRound == Some(4) then DirectProjectHeading else ProjectHeading, r.projectName.value))
    else None
  }

  /** The card as a value: everything the render decides from the review. */
  datatype CardView = CardView(
    roundStrip: bool,
    roundBadge: Option<int>,
    meanTenths: int,
    authorName: string,
    avatar: char,
    project: Option<ProjectPanel>,
    admissionPanel: bool,
    preview: seq<ScoreEntry>,
    more: Option<int>)

  /** The card as rendered. The score preview and its "+N" marker live
      inside the admission-round box, so other rounds show neither. */
  function View(r: Review): (v: CardView)
    ensures v.roundStrip <==> RoundLabel(r.admissionRound).Some?
    ensures v.roundBadge.Some? <==> v.roundStrip
    ensures v.roundBadge.Some? ==> Some(v.roundBadge.value) == r.admissionRound
    ensures -1 <= 3 * v.meanTenths - 10 * (r.ratingAcademic + r.ratingSocial + r.ratingFacility) <= 1
    ensures v.authorName == DisplayName(r.author) && v.avatar == AvatarInitial(r.author)
    ensures v.admissionPanel <==> r.admissionRound == Some(3)
    ensures v.project == ProjectPreview(r)
    ensures v.preview == (if v.admissionPanel then PreviewScores(r.scores) else [])
    ensures v.more == (if v.admissionPanel then MoreCount(r.scores) else None)
    ensures |v.preview| > 0 <==> v.admissionPanel && r.scores.Some? && |r.scores.value| > 0
    ensures v.more.Some? ==> |v.preview| == PreviewCount
  {
    var configured := RoundLabel(r.admissionRound).Some?;
    var admission := r.admissionRound == Some(3);
    var preview := PreviewScores(r.scores);
    var scoreBox := admission && |preview| > 0;
    CardView(
      configured,
      if configured then r.admissionRound else None,
      ReviewMeanTenths(r),
      DisplayName(r.author),
      AvatarInitial(r.author),
      ProjectPreview(r),
      admission,
      if scoreBox then preview else [],
      if scoreBox then MoreCount(r.scores) else None)
  }

  /** A card never shows both the project box and the admission-round score
      box, and the round strip is drawn whenever either box is. */
  lemma PanelsExclusive(r: Review)
    ensures !(View(r).project.Some? && View(r).admissionPanel)
    ensures (View(r).project.Some? || View(r).admissionPanel) ==> View(r).roundStrip
  {
  }
}
