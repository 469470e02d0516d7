/**
 * The community feed's card for one decorated issue: the reporter's avatar initials and name,
 * the status and priority badges, the image when there is one, the two vote buttons with
 * their counts, the signed net count, and the links to the issue page.
 */
module IssueCard {
  import opened Domain
  import opened Text
  import opened Votes
  import opened Badges
  import opened Display
  import opened CommunityFeed

  /** What the card shows. */
  datatype CardView = CardView(
    initials: string,
    author: string,
    statusBadge: Variant,
    statusLabel: string,
    priorityBadge: Variant,
    showImage: bool,
    upvoteButton: ButtonVariant,
    downvoteButton: ButtonVariant,
    upvotes: nat,
    downvotes: nat,
    net: string,
    comments: nat,
    link: string)

  /** The card for the decorated issue `f`. */
  function Render(f: FeedIssue): (v: CardView)
    ensures v.initials == AvatarInitials(f.issue.reporterName) && v.author == AuthorName(f.issue.reporterName)
    ensures v.initials != [] && v.author != []
    ensures f.issue.reporterName.Some? && !Blank(f.issue.reporterName.value) ==>
      v.initials == Upper(WordStarts(f.issue.reporterName.value, true))
    ensures f.issue.reporterName.Some? && f.issue.reporterName.value != "" ==> v.author == f.issue.reporterName.value
    ensures v.statusBadge == StatusVariant(f.issue.status) && v.priorityBadge == PriorityVariant(f.issue.priority)
    ensures v.statusLabel == StatusLabel(f.issue.status)
    ensures v.upvotes == f.upvotes && v.downvotes == f.downvotes && v.comments == f.commentCount
    ensures v.upvoteButton == VoteButton(f.userVote, Upvote, Ghost)
    ensures v.downvoteButton == VoteButton(f.userVote, Downvote, Ghost)
    ensures v.showImage <==> f.issue.imageUrl.Some? && f.issue.imageUrl.value != ""
    ensures v.upvoteButton != Ghost <==> f.userVote == Some(Upvote)
    ensures v.downvoteButton != Ghost <==> f.userVote == Some(Downvote)
    ensures v.upvoteButton == Ghost || v.downvoteButton == Ghost
    ensures |v.net| >= 1 && (v.net[0] == '+' <==> f.voteCount > 0) && ParseInt(v.net) == Some(f.voteCount)
    ensures v.link == "/issues/" + f.issue.id
  {
    NeverBothHighlighted(f.userVote, Ghost);
    CardView(
      AvatarInitials(f.issue.reporterName),
      AuthorName(f.issue.reporterName),
      StatusVariant(f.issue.status),
      StatusLabel(f.issue.status),
      PriorityVariant(f.issue.priority),
      f.issue.imageUrl.Some? && f.issue.imageUrl.value != "",
      VoteButton(f.userVote, Upvote, Ghost),
      VoteButton(f.userVote, Downvote, Ghost),
      f.upvotes,
      f.downvotes,
      NetDisplay(f.voteCount),
      f.commentCount,
      "/issues/" + f.issue.id)
  }

  /** The arguments a vote button hands to `onVote`. */
  datatype VoteRequest = VoteRequest(issueId: string, kind: VoteKind)

  function OnVoteClick(f: FeedIssue, kind: VoteKind): (r: VoteRequest)
    ensures r.issueId == f.issue.id && r.kind == kind
  {
    VoteRequest(f.issue.id, kind)
  }

  /** On a card built by the feed, the net count reads back as upvotes minus downvotes. */
  lemma CardNetIsTally(issue: Issue, votes: seq<Vote>, comments: seq<Comment>, userId: string)
    ensures ParseInt(Render(Decorate(issue, votes, comments, userId)).net) ==
      Some(Net(Tally(votes, issue.id, userId)))
  {
    DecorateAgreesWithPage(issue, votes, comments, userId);
  }

  /**
   * Clicking a vote button and refetching flips that button: a highlighted one goes idle and
   * an idle one becomes highlighted.
   */
  lemma ClickFlipsButton(issue: Issue, votes: seq<Vote>, comments: seq<Comment>, userId: string, kind: VoteKind, freshId: nat)
    requires UniqueIds(votes) && OneVotePerVoter(votes)
    ensures var r := OnVoteClick(Decorate(issue, votes, comments, userId), kind);
      var before := Decorate(issue, votes, comments, userId);
      var after := Decorate(issue, ApplyVote(votes, r.issueId, userId, r.kind, freshId), comments, userId);
      (VoteButton(after.userVote, kind, Ghost) == Ghost) <==> (VoteButton(before.userVote, kind, Ghost) != Ghost)
  {
    DecorateAgreesWithPage(issue, votes, comments, userId);
    DecorateAgreesWithPage(issue, ApplyVote(votes, issue.id, userId, kind, freshId), comments, userId);
    ApplyVoteTally(votes, issue.id, userId, kind, freshId);
  }
}
