/**
 * The community feed: every fetched issue is decorated with its vote tally, the caller's own
 * vote and its comment count; votes go through the shared toggle followed by a refetch; the
 * visible list is the search filter over the decorated issues.
 */
module CommunityFeed {
  import opened Domain
  import opened Seqs
  import opened Votes
  import opened Store
  import opened IssueSearch

  /** An issue row spread with `vote_count`, `upvotes`, `downvotes`, `comment_count` and `user_vote`. */
  datatype FeedIssue = FeedIssue(
    issue: Issue,
    voteCount: int,
    upvotes: nat,
    downvotes: nat,
    commentCount: nat,
    userVote: Option<VoteKind>)

  /** The decoration of one issue from the votes and comments tables. */
  function Decorate(issue: Issue, votes: seq<Vote>, comments: seq<Comment>, userId: string): (r: FeedIssue)
    ensures r.issue == issue
    ensures r.voteCount == r.upvotes - r.downvotes
    ensures r.upvotes == Count(votes, IssueAndKind(issue.id, Upvote))
    ensures r.downvotes == Count(votes, IssueAndKind(issue.id, Downvote))
    ensures r.commentCount == Count(comments, CommentOnIssue(issue.id))
    ensures r.userVote.Some? <==> Count(votes, ByVoter(issue.id, userId)) == 1
    ensures r.userVote.Some? ==>
      exists v :: v in votes && v.issueId == issue.id && v.userId == userId && v.kind == r.userVote.value
  {
    var d := Tally(votes, issue.id, userId);
    FeedIssue(issue, d.upvotes - d.downvotes, d.upvotes, d.downvotes,
      Count(comments, CommentOnIssue(issue.id)), d.userVote)
  }

  /** The feed shows the same counts and own vote as the issue page. */
  lemma DecorateAgreesWithPage(issue: Issue, votes: seq<Vote>, comments: seq<Comment>, userId: string)
    ensures var f := Decorate(issue, votes, comments, userId);
      VoteData(f.upvotes, f.downvotes, f.userVote) == Tally(votes, issue.id, userId)
      && f.voteCount == Net(Tally(votes, issue.id, userId))
  {
  }

  /** An issue nobody commented on shows a zero comment count. */
  lemma NoCommentsCountZero(issue: Issue, votes: seq<Vote>, comments: seq<Comment>, userId: string)
    requires forall c :: c in comments ==> c.issueId != issue.id
    ensures Decorate(issue, votes, comments, userId).commentCount == 0
  {
    CountZero(comments, CommentOnIssue(issue.id));
  }

  /** `issuesData.map(...)`: one decorated issue per fetched row, in the fetched order. */
  function DecorateAll(issues: seq<Issue>, votes: seq<Vote>, comments: seq<Comment>, userId: string): (r: seq<FeedIssue>)
    ensures |r| == |issues|
    ensures forall i :: 0 <= i < |r| ==> r[i].issue == issues[i] && r[i].voteCount == r[i].upvotes - r[i].downvotes
  {
    seq(|issues|, i requires 0 <= i < |issues| => Decorate(issues[i], votes, comments, userId))
  }

  predicate NewestFirst(issues: seq<Issue>)
  {
    forall i, j :: 0 <= i < j < |issues| ==> issues[i].createdAt >= issues[j].createdAt
  }

  /** The decoration keeps the store's newest-first order. */
  lemma DecorateKeepsOrder(issues: seq<Issue>, votes: seq<Vote>, comments: seq<Comment>, userId: string)
    requires NewestFirst(issues)
    ensures var r := DecorateAll(issues, votes, comments, userId);
      forall i, j :: 0 <= i < j < |r| ==> r[i].issue.createdAt >= r[j].issue.createdAt
  {
  }

  function FeedMatch(term: string): FeedIssue -> bool
  {
    (f: FeedIssue) => MatchesSearch(f.issue, term)
  }

  class CommunityFeed {
    const userId: string
    var issues: seq<FeedIssue>
    var loading: bool
    var searchTerm: string

    constructor (userId: string)
      ensures this.userId == userId && issues == [] && loading && searchTerm == ""
    {
      this.userId := userId;
      issues := [];
      loading := true;
      searchTerm := "";
    }

    /** `fetchIssues`: `data` is the newest-first issue query, null when it failed. */
    method FetchIssues(data: Option<seq<Issue>>, votes: VoteTable, comments: CommentTable)
      modifies this
      ensures data.Some? ==> issues == DecorateAll(data.value, votes.rows, comments.rows, userId)
      ensures data.None? ==> issues == old(issues)
      ensures !loading && searchTerm == old(searchTerm)
    {
      if data.Some? {
        issues := DecorateAll(data.value, votes.rows, comments.rows, userId);
      }
      loading := false;
    }

    /** `handleVote(issueId, kind)`: the toggle on the votes table (`writeFailed` as in `Votes.HandleVote`), then a refetch. */
    method HandleVote(issueId: string, kind: VoteKind, writeFailed: bool, votes: VoteTable, data: Option<seq<Issue>>, comments: CommentTable)
      requires votes.Valid() && OneVotePerVoter(votes.rows)
      modifies this, votes
      ensures votes.Valid() && OneVotePerVoter(votes.rows)
      ensures writeFailed ==> votes.rows == old(votes.rows)
      ensures !writeFailed ==> votes.rows == ApplyVote(old(votes.rows), issueId, userId, kind, old(votes.nextId))
      ensures data.Some? ==> issues == DecorateAll(data.value, votes.rows, comments.rows, userId)
      ensures data.None? ==> issues == old(issues)
    {
      Votes.HandleVote(votes, issueId, userId, kind, writeFailed);
      FetchIssues(data, votes, comments);
    }

    method SetSearchTerm(term: string)
      modifies this
      ensures searchTerm == term && issues == old(issues) && loading == old(loading)
    {
      searchTerm := term;
    }

    /** `filteredIssues`: the issues the search keeps, in feed order. */
    function FilteredIssues(): (r: seq<FeedIssue>)
      reads this
      ensures forall f :: f in r ==> f in issues && MatchesSearch(f.issue, searchTerm)
      ensures forall i :: 0 <= i < |issues| && MatchesSearch(issues[i].issue, searchTerm) ==> issues[i] in r
      ensures searchTerm == "" ==> r == issues
    {
      if searchTerm == "" then
        forall f | f in issues
          ensures FeedMatch("")(f)
        {
          EmptyTermMatches(f.issue);
        }
        FilterAll(issues, FeedMatch(""));
        Filter(issues, FeedMatch(searchTerm))
      else Filter(issues, FeedMatch(searchTerm))
    }

    /** The message when nothing is shown. */
    function EmptyMessage(): (r: string)
      reads this
      ensures searchTerm != "" <==> r == "No issues found matching your search."
      ensures searchTerm == "" <==> r == "No issues reported yet."
    {
      if searchTerm != "" then "No issues found matching your search." else "No issues reported yet."
    }
  }

  /** The feed search keeps issues in order: the result is a subsequence of the feed. */
  lemma FilteredIsSubsequence(feed: CommunityFeed)
    ensures Sub(feed.FilteredIssues(), feed.issues)
  {
    FilterIsSub(feed.issues, FeedMatch(feed.searchTerm));
  }
}
