/**
 * The comment panel of an issue page: the issue's comments, oldest first, and a form whose
 * trimmed text is posted under the viewer's id. Blank text is never posted; a failed post
 * keeps the text in the form.
 */
module IssueComments {
  import opened Domain
  import opened Seqs
  import opened Text
  import opened Store

  class IssueComments {
    const issueId: string
    const userId: string
    var comments: seq<Comment>
    var newComment: string
    var loading: bool
    var submitting: bool

    constructor (issueId: string, userId: string)
      ensures this.issueId == issueId && this.userId == userId
      ensures comments == [] && newComment == "" && loading && !submitting
    {
      this.issueId := issueId;
      this.userId := userId;
      comments := [];
      newComment := "";
      loading := true;
      submitting := false;
    }

    /** `fetchComments`: this issue's comments, oldest first; `failed` is the store's error answer. */
    method FetchComments(table: CommentTable, failed: bool)
      modifies this
      ensures !failed ==> comments == CommentsOf(table.rows, issueId)
      ensures failed ==> comments == old(comments)
      ensures !loading && newComment == old(newComment) && submitting == old(submitting)
    {
      if !failed {
        comments := CommentsOf(table.rows, issueId);
      }
      loading := false;
    }

    /** The textarea's change handler. */
    method SetNewComment(text: string)
      modifies this
      ensures newComment == text
      ensures comments == old(comments) && loading == old(loading) && submitting == old(submitting)
    {
      newComment := text;
    }

    /**
     * `handleSubmitComment`: blank text returns at once; otherwise the trimmed text is inserted
     * (`failed` is the store's error answer), and on success the form is cleared and the list
     * refetched (`refetchFailed` is that query's null answer, which keeps the old list). `now` and
     * `authorName` are what the store fills in for the new row.
     */
    method HandleSubmitComment(table: CommentTable, failed: bool, refetchFailed: bool, now: Timestamp, authorName: Option<string>)
      requires table.Valid()
      modifies this, table
      ensures table.Valid()
      ensures AllSpace(old(newComment)) ==>
        table.rows == old(table.rows) && newComment == old(newComment)
        && comments == old(comments) && submitting == old(submitting) && loading == old(loading)
      ensures !AllSpace(old(newComment)) && failed ==>
        table.rows == old(table.rows) && newComment == old(newComment) && comments == old(comments) && !submitting
        && loading == old(loading)
      ensures !AllSpace(old(newComment)) && !failed ==>
        table.rows == old(table.rows) + [Comment(old(table.nextId), issueId, userId, Trim(old(newComment)), authorName, now)]
        && newComment == "" && !submitting && !loading
      ensures !AllSpace(old(newComment)) && !failed && !refetchFailed ==> comments == CommentsOf(table.rows, issueId)
      ensures !AllSpace(old(newComment)) && !failed && refetchFailed ==> comments == old(comments)
    {
      var content := Trim(newComment);
      if content == "" {
        return;
      }
      submitting := true;
      if !failed {
        table.Insert(issueId, userId, content, authorName, now);
        newComment := "";
        FetchComments(table, refetchFailed);
      }
      submitting := false;
    }

    /** `disabled={submitting || !newComment.trim()}`. */
    function SubmitDisabled(): (r: bool)
      reads this
      ensures r <==> submitting || AllSpace(newComment)
    {
      submitting || Trim(newComment) == ""
    }

    /** The header, `Comments (n)`. */
    function Header(): (r: string)
      reads this
      ensures r == "Comments (" + NatToString(|comments|) + ")"
      ensures DigitsValue(r[10..|r| - 1]) == |comments|
    {
      DigitsValueOfNatToString(|comments|);
      var r := "Comments (" + NatToString(|comments|) + ")";
      assert r[10..|r| - 1] == NatToString(|comments|);
      r
    }

    function EmptyMessage(): (r: Option<string>)
      reads this
      ensures r.Some? <==> comments == []
    {
      if comments == [] then Some("No comments yet. Be the first to share your thoughts!") else None
    }
  }

  /** What is posted is never blank and has no surrounding whitespace. */
  lemma PostedContentIsTrimmed(text: string)
    requires !AllSpace(text)
    ensures var c := Trim(text); c != [] && !IsSpace(c[0]) && !IsSpace(c[|c| - 1])
  {
  }

  /** A comment posted on the issue is in the list the refetch returns. */
  lemma PostedCommentListed(rows: seq<Comment>, c: Comment)
    ensures c in CommentsOf(rows + [c], c.issueId)
  {
    var f := Filter(rows + [c], CommentOnIssue(c.issueId));
    assert (rows + [c])[|rows|] == c;
    assert c in multiset(f);
  }

  /** A comment posted later than every existing one is listed last. */
  lemma LatestCommentListedLast(rows: seq<Comment>, c: Comment)
    requires forall d :: d in rows ==> d.createdAt <= c.createdAt
    ensures var r := CommentsOf(rows + [c], c.issueId); r != [] && r[|r| - 1].createdAt == c.createdAt
  {
    var r := CommentsOf(rows + [c], c.issueId);
    PostedCommentListed(rows, c);
    var last := r[|r| - 1];
    assert last in r;
    var k :| 0 <= k < |r| && r[k] == c;
    assert CreatedAt(r[k]) <= CreatedAt(last);
  }
}
