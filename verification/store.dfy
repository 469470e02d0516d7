/**
 * The backend tables the components update in place, as in-memory tables. Each update is
 * `.update({...}).eq("id", id)`: every row with that id is rewritten, every other row is kept.
 */
module Store {
  import opened Domain
  import opened Seqs

  /** `.update({ status, resolved_at }).eq("id", id)` on `issues`. */
  function SetStatusWhereId(rows: seq<Issue>, id: string, status: string, resolvedAt: Option<Timestamp>): (r: seq<Issue>)
    ensures |r| == |rows|
  {
    seq(|rows|, i requires 0 <= i < |rows| =>
      if rows[i].id == id then rows[i].(status := status, resolvedAt := resolvedAt) else rows[i])
  }

  /** Only the rows with the given id change, and in them only status and resolved_at. */
  lemma SetStatusWhereIdFrame(rows: seq<Issue>, id: string, status: string, resolvedAt: Option<Timestamp>)
    ensures var r := SetStatusWhereId(rows, id, status, resolvedAt);
      forall i :: 0 <= i < |rows| ==>
        (rows[i].id != id ==> r[i] == rows[i])
        && (rows[i].id == id ==> r[i].status == status && r[i].resolvedAt == resolvedAt
                                 && r[i] == rows[i].(status := r[i].status, resolvedAt := r[i].resolvedAt))
  {
  }

  /** `.from("issues").select(...).eq("id", id).single()`: the row if exactly one has the id. */
  function SingleIssue(rows: seq<Issue>, id: string): (r: Option<Issue>)
    ensures r.Some? <==> Count(rows, IssueIdIs(id)) == 1
    ensures r.Some? ==> r.value in rows && r.value.id == id
  {
    var matching := Filter(rows, IssueIdIs(id));
    if |matching| == 1 then Some(matching[0]) else None
  }

  function IssueIdIs(id: string): Issue -> bool
  {
    (i: Issue) => i.id == id
  }

  /** `.update({ role }).eq("id", id)` on `profiles`. */
  function SetRoleWhereId(rows: seq<Profile>, id: string, role: string): (r: seq<Profile>)
    ensures |r| == |rows|
  {
    seq(|rows|, i requires 0 <= i < |rows| => if rows[i].id == id then rows[i].(role := role) else rows[i])
  }

  /** Only the role of the profiles with the given id changes. */
  lemma SetRoleWhereIdFrame(rows: seq<Profile>, id: string, role: string)
    ensures var r := SetRoleWhereId(rows, id, role);
      forall i :: 0 <= i < |rows| ==>
        (rows[i].id != id ==> r[i] == rows[i])
        && (rows[i].id == id ==> r[i].role == role && r[i] == rows[i].(role := r[i].role))
  {
  }

  /** With unique profile ids, exactly one row is rewritten when the id exists, none otherwise. */
  lemma SetRoleChangesAtMostOne(rows: seq<Profile>, id: string, role: string, k: nat)
    requires forall i, j :: 0 <= i < |rows| && 0 <= j < |rows| && rows[i].id == rows[j].id ==> i == j
    requires k < |rows| && rows[k].id == id
    ensures SetRoleWhereId(rows, id, role) == rows[k := rows[k].(role := role)]
  {
  }

  function CommentOnIssue(issueId: string): Comment -> bool
  {
    (c: Comment) => c.issueId == issueId
  }

  function CreatedAt(c: Comment): int
  {
    c.createdAt
  }

  /** `.from("comments").select(...).eq("issue_id", id).order("created_at", { ascending: true })`. */
  function CommentsOf(rows: seq<Comment>, issueId: string): (r: seq<Comment>)
    ensures SortedBy(r, CreatedAt)
    ensures multiset(r) == multiset(Filter(rows, CommentOnIssue(issueId)))
    ensures forall c :: c in r ==> c in rows && c.issueId == issueId
  {
    var r := SortBy(Filter(rows, CommentOnIssue(issueId)), CreatedAt);
    assert forall c :: c in r ==> c in multiset(r);
    r
  }

  function NegCreatedAt(i: Issue): int
  {
    -(i.createdAt as int)
  }

  /** `.order("created_at", { ascending: false })` over issue rows: newest first. */
  function IssuesNewestFirst(rows: seq<Issue>): (r: seq<Issue>)
    ensures multiset(r) == multiset(rows)
    ensures forall a, b :: 0 <= a < b < |r| ==> r[a].createdAt >= r[b].createdAt
  {
    SortBy(rows, NegCreatedAt)
  }

  function ProfileNegCreatedAt(p: Profile): int
  {
    -(p.createdAt as int)
  }

  /** `.order("created_at", { ascending: false })` over profiles: newest first. */
  function ProfilesNewestFirst(rows: seq<Profile>): (r: seq<Profile>)
    ensures multiset(r) == multiset(rows)
    ensures forall a, b :: 0 <= a < b < |r| ==> r[a].createdAt >= r[b].createdAt
  {
    SortBy(rows, ProfileNegCreatedAt)
  }

  /** The issues table; the components only rewrite rows in place. */
  class IssueTable {
    var rows: seq<Issue>

    constructor (rows: seq<Issue>)
      ensures this.rows == rows
    {
      this.rows := rows;
    }

    method UpdateStatusById(id: string, status: string, resolvedAt: Option<Timestamp>)
      modifies this
      ensures rows == SetStatusWhereId(old(rows), id, status, resolvedAt)
    {
      rows := SetStatusWhereId(rows, id, status, resolvedAt);
    }
  }

  /** The profiles table. */
  class ProfileTable {
    var rows: seq<Profile>

    constructor (rows: seq<Profile>)
      ensures this.rows == rows
    {
      this.rows := rows;
    }

    method UpdateRoleById(id: string, role: string)
      modifies this
      ensures rows == SetRoleWhereId(old(rows), id, role)
    {
      rows := SetRoleWhereId(rows, id, role);
    }
  }

  /** The comments table; the store gives each inserted row a fresh id and the current time. */
  class CommentTable {
    var rows: seq<Comment>
    var nextId: nat

    ghost predicate Valid()
      reads this
    {
      forall i :: 0 <= i < |rows| ==> rows[i].id < nextId
    }

    constructor ()
      ensures Valid() && rows == []
    {
      rows := [];
      nextId := 0;
    }

    /** `.insert({ issue_id, user_id, content })`; the author's name comes from the profile join. */
    method Insert(issueId: string, userId: string, content: string, authorName: Option<string>, now: Timestamp)
      requires Valid()
      modifies this
      ensures Valid() && nextId == old(nextId) + 1
      ensures rows == old(rows) + [Comment(old(nextId), issueId, userId, content, authorName, now)]
    {
      rows := rows + [Comment(nextId, issueId, userId, content, authorName, now)];
      nextId := nextId + 1;
    }
  }
}
