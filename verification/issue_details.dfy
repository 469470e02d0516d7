/**
 * The issue page's voting panel: `voteData` is refreshed from the votes table on mount and
 * after every vote; a vote is the shared read-then-delete/update/insert toggle.
 */
module IssueDetails {
  import opened Domain
  import opened Text
  import opened Votes
  import opened Display

  class IssueDetails {
    const issue: Issue
    const userId: string
    var voteData: VoteData

    /** The initial state: no votes and no own vote until the first fetch. */
    constructor (issue: Issue, userId: string)
      ensures this.issue == issue && this.userId == userId
      ensures voteData == VoteData(0, 0, None)
    {
      this.issue := issue;
      this.userId := userId;
      voteData := VoteData(0, 0, None);
    }

    /**
     * `fetchVoteData`: the tally of this issue's rows and the caller's own vote. `countsFailed`
     * is the store failing the vote query, shown as 0/0 through `|| 0`; `ownFailed` is the
     * store failing the own-vote lookup, shown as no vote.
     */
    method FetchVoteData(table: VoteTable, countsFailed: bool, ownFailed: bool)
      modifies this
      ensures var t := Tally(table.rows, issue.id, userId);
        voteData.upvotes == (if countsFailed then 0 else t.upvotes)
        && voteData.downvotes == (if countsFailed then 0 else t.downvotes)
        && voteData.userVote == (if ownFailed then None else t.userVote)
    {
      var existing: Option<Vote> := None;
      if !ownFailed {
        existing := table.SelectSingle(issue.id, userId);
      }
      var up, down := 0, 0;
      if !countsFailed {
        var data := Tally(table.rows, issue.id, userId);
        up, down := data.upvotes, data.downvotes;
      }
      voteData := VoteData(up, down, if existing.Some? then Some(existing.value.kind) else None);
    }

    /** `handleVote`: the toggle on the table (`writeFailed` as in `Votes.HandleVote`), then a refresh. */
    method HandleVote(table: VoteTable, kind: VoteKind, writeFailed: bool, countsFailed: bool, ownFailed: bool)
      requires table.Valid() && OneVotePerVoter(table.rows)
      modifies this, table
      ensures table.Valid() && OneVotePerVoter(table.rows)
      ensures writeFailed ==> table.rows == old(table.rows)
      ensures !writeFailed ==> table.rows == ApplyVote(old(table.rows), issue.id, userId, kind, old(table.nextId))
      ensures !countsFailed && !ownFailed ==> voteData == Tally(table.rows, issue.id, userId)
      ensures countsFailed ==> voteData.upvotes == 0 && voteData.downvotes == 0
      ensures ownFailed ==> voteData.userVote == None
    {
      Votes.HandleVote(table, issue.id, userId, kind, writeFailed);
      FetchVoteData(table, countsFailed, ownFailed);
    }

    /** "Net votes: n", with no sign for positive counts (unlike the card). */
    function NetVotesText(): (r: string)
      reads this
      ensures r == "Net votes: " + IntToString(Net(voteData))
      ensures ParseInt(r[|"Net votes: "|..]) == Some(voteData.upvotes - voteData.downvotes)
    {
      IntToStringRoundTrip(Net(voteData));
      assert ("Net votes: " + IntToString(Net(voteData)))[|"Net votes: "|..] == IntToString(Net(voteData));
      "Net votes: " + IntToString(Net(voteData))
    }

    /** The upvote button: outline until the caller's own vote is an upvote, then filled. */
    function UpvoteButton(): (v: ButtonVariant)
      reads this
      ensures v == Default || v == Outline
      ensures v == Default <==> voteData.userVote == Some(Upvote)
    {
      VoteButton(voteData.userVote, Upvote, Outline)
    }

    /** The downvote button: outline until the caller's own vote is a downvote, then red. */
    function DownvoteButton(): (v: ButtonVariant)
      reads this
      ensures v == Destructive || v == Outline
      ensures v == Destructive <==> voteData.userVote == Some(Downvote)
    {
      VoteButton(voteData.userVote, Downvote, Outline)
    }
  }

  function Sign(kind: VoteKind): int
  {
    if kind == Upvote then 1 else -1
  }

  /** How one vote moves the net: +-1 for a new vote or a toggle-off, +-2 for a switch. */
  lemma NetAfterVote(rows: seq<Vote>, issueId: string, userId: string, kind: VoteKind, freshId: nat)
    requires UniqueIds(rows) && OneVotePerVoter(rows)
    ensures var before := Tally(rows, issueId, userId);
      var after := Tally(ApplyVote(rows, issueId, userId, kind, freshId), issueId, userId);
      Net(after) - Net(before) ==
        match before.userVote
        case None => Sign(kind)
        case Some(k) => if k == kind then -Sign(kind) else 2 * Sign(kind)
  {
    ApplyVoteTally(rows, issueId, userId, kind, freshId);
  }

  /** Two users upvote an issue with no votes: net 2, and a third user has no vote. */
  lemma TwoUpvotesScenario(issueId: string, a: string, b: string, c: string)
    requires a != b && c != a && c != b
    ensures var t := ApplyVote(ApplyVote([], issueId, a, Upvote, 0), issueId, b, Upvote, 1);
      Net(Tally(t, issueId, c)) == 2 && Tally(t, issueId, c).userVote == None
  {
    var t1 := ApplyVote([], issueId, a, Upvote, 0);
    ApplyVoteKeepsInvariant([], issueId, a, Upvote, 0);
    ApplyVoteTally([], issueId, a, Upvote, 0);
    assert t1 == [Vote(0, issueId, a, Upvote)];
    assert Single(t1, issueId, b) == None;
    var t := ApplyVote(t1, issueId, b, Upvote, 1);
    assert t == t1 + [Vote(1, issueId, b, Upvote)];
    ApplyVoteTally(t1, issueId, b, Upvote, 1);
    assert Tally(t, issueId, c).upvotes == Tally(t, issueId, b).upvotes;
  }
}
