/**
 * The notification system's three change handlers, as decisions from an event (and, for a
 * comment, the looked-up issue) to an optional toast. Status toasts and new-issue toasts go
 * to every subscriber; a comment toast goes to the issue's reporter, whoever wrote the comment.
 */
module Notifications {
  import opened Domain
  import opened Seqs
  import opened Store
  import opened Text

  datatype Icon = Clock | CheckCircle | AlertTriangle | Bell

  datatype Toast = Toast(title: string, description: string, icon: Icon)

  /**
   * A change delivered by the subscription. `oldStatus` is the status in the change's old
   * row, absent when the feed does not carry that column (it then compares as `undefined`).
   */
  datatype ChangeEvent =
    | IssueUpdated(newRow: Issue, oldStatus: Option<string>)
    | IssueInserted(inserted: Issue)
    | CommentInserted(comment: Comment)

  const MappedStatuses: set<string> := {"in_progress", "resolved", "closed"}

  /** `statusMessages[status]`. */
  function StatusMessage(status: string): (m: Option<string>)
    ensures m.Some? <==> status in MappedStatuses
    ensures status == "in_progress" ==> m == Some("Issue is now being worked on")
    ensures status == "resolved" ==> m == Some("Issue has been resolved")
    ensures status == "closed" ==> m == Some("Issue has been closed")
  {
    match status
    case "in_progress" => Some("Issue is now being worked on")
    case "resolved" => Some("Issue has been resolved")
    case "closed" => Some("Issue has been closed")
    case _ => None
  }

  /** `statusIcons[status]`. */
  function StatusIcon(status: string): (i: Option<Icon>)
    ensures i.Some? <==> status in MappedStatuses
    ensures status == "in_progress" ==> i == Some(Clock)
    ensures status == "resolved" ==> i == Some(CheckCircle)
    ensures status == "closed" ==> i == Some(AlertTriangle)
  {
    match status
    case "in_progress" => Some(Clock)
    case "resolved" => Some(CheckCircle)
    case "closed" => Some(AlertTriangle)
    case _ => None
  }

  /** The UPDATE handler: a toast titled with the issue title when the status changed to a mapped one. */
  function OnIssueUpdate(newRow: Issue, oldStatus: Option<string>): (t: Option<Toast>)
    ensures t.Some? <==> oldStatus != Some(newRow.status) && newRow.status in MappedStatuses
    ensures t.Some? ==> t.value.title == newRow.title
    ensures t.Some? ==> Some(t.value.description) == StatusMessage(newRow.status)
    ensures t.Some? ==> Some(t.value.icon) == StatusIcon(newRow.status)
  {
    if oldStatus == Some(newRow.status) then None
    else
      match (StatusMessage(newRow.status), StatusIcon(newRow.status))
      case (Some(message), Some(icon)) => Some(Toast(newRow.title, message, icon))
      case _ => None
  }

  /** The INSERT handler on issues: every new issue is announced. */
  function OnIssueInsert(inserted: Issue): (t: Toast)
    ensures t.title == "New Issue Reported" && t.description == inserted.title && t.icon == Bell
  {
    Toast("New Issue Reported", inserted.title, Bell)
  }

  /** The comment toast: `Someone commented on "<title>"` under "New Comment", with the bell. */
  function CommentToast(title: string): (t: Toast)
    ensures t.title == "New Comment" && t.icon == Bell
    ensures t.description == "Someone commented on \"" + title + "\""
  {
    Toast("New Comment", "Someone commented on \"" + title + "\"", Bell)
  }

  /** The comment toast names the commented issue, between quotes. */
  lemma CommentToastQuotesTitle(title: string)
    ensures Contains(CommentToast(title).description, "\"" + title + "\"")
  {
    var d := CommentToast(title).description;
    var n := |"Someone commented on "|;
    assert d[n..n + |title| + 2] == "\"" + title + "\"";
    ContainsAt(d, "\"" + title + "\"", n);
  }

  /** The INSERT handler on comments: the parent issue is looked up with `.single()`. */
  function OnCommentInsert(comment: Comment, issues: seq<Issue>, userId: string): (t: Option<Toast>)
    ensures t.Some? <==> SingleIssue(issues, comment.issueId).Some?
                         && SingleIssue(issues, comment.issueId).value.reporterId == userId
    ensures t.Some? ==> t.value == CommentToast(SingleIssue(issues, comment.issueId).value.title)
  {
    match SingleIssue(issues, comment.issueId)
    case Some(issue) => if issue.reporterId == userId then Some(CommentToast(issue.title)) else None
    case None => None
  }

  /** What a subscriber with `userId` is shown for one change, with the issues table at that moment. */
  function Dispatch(e: ChangeEvent, issues: seq<Issue>, userId: string): (t: Option<Toast>)
    ensures e.IssueInserted? ==> t == Some(OnIssueInsert(e.inserted))
    ensures e.IssueUpdated? ==> t == OnIssueUpdate(e.newRow, e.oldStatus)
    ensures e.CommentInserted? ==> t == OnCommentInsert(e.comment, issues, userId)
  {
    match e
    case IssueUpdated(newRow, oldStatus) => OnIssueUpdate(newRow, oldStatus)
    case IssueInserted(inserted) => Some(OnIssueInsert(inserted))
    case CommentInserted(comment) => OnCommentInsert(comment, issues, userId)
  }

  /** Issue toasts have no reporter check: every subscriber sees the same thing. */
  lemma IssueToastsForEverySubscriber(e: ChangeEvent, issues: seq<Issue>, u1: string, u2: string)
    requires !e.CommentInserted?
    ensures Dispatch(e, issues, u1) == Dispatch(e, issues, u2)
  {
  }

  /** A change to "open" (or to any unmapped status) is never announced. */
  lemma NoToastForUnmapped(newRow: Issue, oldStatus: Option<string>)
    requires newRow.status !in MappedStatuses
    ensures OnIssueUpdate(newRow, oldStatus) == None
  {
  }

  /** An update that leaves the status as it was is not announced, whatever else changed. */
  lemma NoToastWithoutStatusChange(newRow: Issue, status: string)
    requires newRow.status == status
    ensures OnIssueUpdate(newRow, Some(status)) == None
  {
  }

  /** When the old row does not carry the status, every update of a mapped-status issue is announced. */
  lemma MissingOldStatusAlwaysAnnounces(newRow: Issue)
    requires newRow.status in MappedStatuses
    ensures OnIssueUpdate(newRow, None).Some?
  {
  }

  /** Starting work on an open issue announces it under the issue's title. */
  lemma StartWorkScenario(newRow: Issue)
    requires newRow.status == "in_progress"
    ensures OnIssueUpdate(newRow, Some("open")) == Some(Toast(newRow.title, "Issue is now being worked on", Clock))
  {
  }

  /** The comment's author is never consulted: any author gives the same decision. */
  lemma CommentAuthorIgnored(comment: Comment, author: string, issues: seq<Issue>, userId: string)
    ensures OnCommentInsert(comment.(userId := author), issues, userId) == OnCommentInsert(comment, issues, userId)
  {
  }

  /** So a reporter commenting on their own issue is notified of it. */
  lemma SelfCommentNotified(comment: Comment, issue: Issue, userId: string)
    requires comment.issueId == issue.id && issue.reporterId == userId && comment.userId == userId
    ensures OnCommentInsert(comment, [issue], userId) == Some(CommentToast(issue.title))
  {
    assert Filter([issue], IssueIdIs(issue.id)) == [issue] by {
      assert [issue][1..] == [];
    }
  }

  /** A comment on an issue the subscriber did not report is not announced to them. */
  lemma OthersIssueSilent(comment: Comment, issues: seq<Issue>, userId: string)
    requires forall i :: i in issues && i.id == comment.issueId ==> i.reporterId != userId
    ensures OnCommentInsert(comment, issues, userId) == None
  {
  }
}
