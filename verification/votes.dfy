/** The like/dislike buttons of the review detail dialog: a three-state
    vote (none, like, dislike) driving two counters. */
module Votes {
  import opened Options

  datatype Choice = Like | Dislike
  datatype Vote = NoVote | Voted(choice: Choice)
  datatype VoteState = VoteState(likes: int, dislikes: int, vote: Vote)

  /** `useState(review?.likes || 0)` and the same for dislikes; nobody has
      voted yet. */
  function InitialVotes(likes: Option<int>, dislikes: Option<int>): (s: VoteState)
    ensures s.vote == NoVote
    ensures s.likes == likes.GetOr(0) && s.dislikes == dislikes.GetOr(0)
    ensures Accounts(s, likes.GetOr(0), dislikes.GetOr(0))
  {
    VoteState(likes.GetOr(0), dislikes.GetOr(0), NoVote)
  }

  /** `handleVote`: clicking the current vote withdraws it; clicking the
      other choice moves the vote; clicking with no vote casts it. */
  function HandleVote(s: VoteState, c: Choice): (t: VoteState)
    ensures t.vote == (if s.vote == Voted(c) then NoVote else Voted(c))
    ensures t.likes - s.likes == Indicator(t.vote == Voted(Like)) - Indicator(s.vote == Voted(Like))
    ensures t.dislikes - s.dislikes == Indicator(t.vote == Voted(Dislike)) - Indicator(s.vote == Voted(Dislike))
  {
    if s.vote == Voted(c) then Withdraw(s)
    else
      var withdrawn := Withdraw(s);
      match c
      case Like => withdrawn.(vote := Voted(Like), likes := withdrawn.likes + 1)
      case Dislike => withdrawn.(vote := Voted(Dislike), dislikes := withdrawn.dislikes + 1)
  }

  /** Takes back the current vote, if any, from its counter. */
  function Withdraw(s: VoteState): (t: VoteState)
    ensures t.vote == NoVote
  {
    match s.vote
    case NoVote => s
    case Voted(Like) => s.(vote := NoVote, likes := s.likes - 1)
    case Voted(Dislike) => s.(vote := NoVote, dislikes := s.dislikes - 1)
  }

  function Indicator(b: bool): int {
    if b then 1 else 0
  }

  /** The counters are the loaded counts plus this user's current vote. */
  predicate Accounts(s: VoteState, baseLikes: int, baseDislikes: int) {
    s.likes == baseLikes + Indicator(s.vote == Voted(Like)) &&
    s.dislikes == baseDislikes + Indicator(s.vote == Voted(Dislike))
  }

  /** Casting a vote from none raises exactly the chosen counter by one. */
  lemma FirstVote(s: VoteState, c: Choice)
    requires s.vote == NoVote
    ensures HandleVote(s, c).vote == Voted(c)
    ensures c == Like ==> HandleVote(s, c).likes == s.likes + 1 && HandleVote(s, c).dislikes == s.dislikes
    ensures c == Dislike ==> HandleVote(s, c).dislikes == s.dislikes + 1 && HandleVote(s, c).likes == s.likes
  {
  }

  /** Switching between like and dislike moves one count across; the total
      is unchanged. */
  lemma SwitchVote(s: VoteState, c: Choice)
    requires s.vote.Voted? && s.vote.choice != c
    ensures HandleVote(s, c).vote == Voted(c)
    ensures HandleVote(s, c).likes + HandleVote(s, c).dislikes == s.likes + s.dislikes
    ensures c == Like ==> HandleVote(s, c).likes == s.likes + 1
    ensures c == Dislike ==> HandleVote(s, c).dislikes == s.dislikes + 1
  {
  }

  /** Clicking the same button twice from no vote, or from that vote,
      restores the state. */
  lemma VoteTwiceRestores(s: VoteState, c: Choice)
    requires s.vote == NoVote || s.vote == Voted(c)
    ensures HandleVote(HandleVote(s, c), c) == s
  {
  }

  /** Every click keeps the counters equal to the base counts plus the
      current vote. */
  lemma HandleVoteAccounts(s: VoteState, c: Choice, baseLikes: int, baseDislikes: int)
    requires Accounts(s, baseLikes, baseDislikes)
    ensures Accounts(HandleVote(s, c), baseLikes, baseDislikes)
  {
  }

  function HandleVotes(s: VoteState, clicks: seq<Choice>): VoteState
    decreases |clicks|
  {
    if |clicks| == 0 then s else HandleVotes(HandleVote(s, clicks[0]), clicks[1..])
  }

  /** Over any sequence of clicks after opening the dialog, the shown counts
      are the loaded counts (absent meaning 0) plus the current vote. */
  lemma {:induction false} ClicksAccount(likes: Option<int>, dislikes: Option<int>, clicks: seq<Choice>)
    ensures Accounts(HandleVotes(InitialVotes(likes, dislikes), clicks), likes.GetOr(0), dislikes.GetOr(0))
  {
    ClicksPreserveAccounts(InitialVotes(likes, dislikes), clicks, likes.GetOr(0), dislikes.GetOr(0));
  }

  lemma {:induction false} ClicksPreserveAccounts(s: VoteState, clicks: seq<Choice>, baseLikes: int, baseDislikes: int)
    requires Accounts(s, baseLikes, baseDislikes)
    ensures Accounts(HandleVotes(s, clicks), baseLikes, baseDislikes)
    decreases |clicks|
  {
    if |clicks| > 0 {
      HandleVoteAccounts(s, clicks[0], baseLikes, baseDislikes);
      ClicksPreserveAccounts(HandleVote(s, clicks[0]), clicks[1..], baseLikes, baseDislikes);
    }
  }
}
