/**
 * The `votes` table and the vote toggle shared by the issue page and the community feed:
 * read the caller's vote with `.single()`, then delete it (same kind), switch its kind in
 * place (other kind) or insert a new row (no vote); and the tally computed from the rows.
 */
module Votes {
  import opened Domain
  import opened Seqs

  // Row selectors, as the `.eq(...)` filters of the queries.

  function OnIssue(issueId: string): Vote -> bool
  {
    (v: Vote) => v.issueId == issueId
  }

  function OfKind(kind: VoteKind): Vote -> bool
  {
    (v: Vote) => v.kind == kind
  }

  function IssueAndKind(issueId: string, kind: VoteKind): Vote -> bool
  {
    (v: Vote) => v.issueId == issueId && v.kind == kind
  }

  function ByVoter(issueId: string, userId: string): Vote -> bool
  {
    (v: Vote) => v.issueId == issueId && v.userId == userId
  }

  function OtherVoters(issueId: string, userId: string): Vote -> bool
  {
    (v: Vote) => !(v.issueId == issueId && v.userId == userId)
  }

  function IdIsNot(id: nat): Vote -> bool
  {
    (v: Vote) => v.id != id
  }

  predicate SameVoter(a: Vote, b: Vote)
  {
    a.issueId == b.issueId && a.userId == b.userId
  }

  /** The primary key: no two rows share an id. */
  predicate UniqueIds(rows: seq<Vote>)
  {
    forall i, j :: 0 <= i < |rows| && 0 <= j < |rows| && rows[i].id == rows[j].id ==> i == j
  }

  predicate IdsBelow(rows: seq<Vote>, bound: nat)
  {
    forall i :: 0 <= i < |rows| ==> rows[i].id < bound
  }

  /** The invariant the components rely on: at most one vote per (issue, user). */
  predicate OneVotePerVoter(rows: seq<Vote>)
  {
    forall i, j :: 0 <= i < |rows| && 0 <= j < |rows| && SameVoter(rows[i], rows[j]) ==> i == j
  }

  // The store operations on the rows.

  /** `.select("*").eq("issue_id", i).eq("user_id", u).single()`: the row if exactly one matches, else null. */
  function Single(rows: seq<Vote>, issueId: string, userId: string): (r: Option<Vote>)
    ensures r.Some? <==> Count(rows, ByVoter(issueId, userId)) == 1
    ensures r.Some? ==> r.value in rows && r.value.issueId == issueId && r.value.userId == userId
  {
    var matching := Filter(rows, ByVoter(issueId, userId));
    if |matching| == 1 then Some(matching[0]) else None
  }

  /** `.delete().eq("id", id)`. */
  function DeleteWhereId(rows: seq<Vote>, id: nat): (r: seq<Vote>)
    ensures forall v :: v in r <==> v in rows && v.id != id
    ensures |r| == Count(rows, IdIsNot(id))
  {
    Filter(rows, IdIsNot(id))
  }

  /** `.update({ vote_type: kind }).eq("id", id)`. */
  function SetKindWhereId(rows: seq<Vote>, id: nat, kind: VoteKind): (r: seq<Vote>)
    ensures |r| == |rows|
  {
    seq(|rows|, i requires 0 <= i < |rows| => if rows[i].id == id then rows[i].(kind := kind) else rows[i])
  }

  /** What one call of `handleVote` does to the table; `freshId` is the id the store gives an inserted row. */
  function ApplyVote(rows: seq<Vote>, issueId: string, userId: string, kind: VoteKind, freshId: nat): (r: seq<Vote>)
    ensures |r| <= |rows| + 1
    ensures forall v :: v in r && v !in rows ==> v.kind == kind
  {
    match Single(rows, issueId, userId)
    case Some(existing) =>
      if existing.kind == kind then DeleteWhereId(rows, existing.id)
      else SetKindWhereId(rows, existing.id, kind)
    case None => rows + [Vote(freshId, issueId, userId, kind)]
  }

  // The tally of `fetchVoteData`.

  datatype VoteData = VoteData(upvotes: nat, downvotes: nat, userVote: Option<VoteKind>)

  /** The counts of one issue's votes by kind, and the caller's own vote kind if `.single()` finds it. */
  function Tally(rows: seq<Vote>, issueId: string, userId: string): (d: VoteData)
    ensures d.upvotes == Count(rows, IssueAndKind(issueId, Upvote))
    ensures d.downvotes == Count(rows, IssueAndKind(issueId, Downvote))
    ensures d.upvotes + d.downvotes == Count(rows, OnIssue(issueId))
    ensures d.userVote.Some? <==> Count(rows, ByVoter(issueId, userId)) == 1
    ensures d.userVote.Some? ==>
      exists v :: v in rows && v.issueId == issueId && v.userId == userId && v.kind == d.userVote.value
  {
    var votes := Filter(rows, OnIssue(issueId));
    CountOfFilter(rows, OnIssue(issueId), OfKind(Upvote), IssueAndKind(issueId, Upvote));
    CountOfFilter(rows, OnIssue(issueId), OfKind(Downvote), IssueAndKind(issueId, Downvote));
    KindsPartition(votes);
    VoteData(
      Count(votes, OfKind(Upvote)),
      Count(votes, OfKind(Downvote)),
      match Single(rows, issueId, userId)
      case Some(v) => Some(v.kind)
      case None => None)
  }

  /** The net shown on the page and stored as `vote_count` in the feed. */
  function Net(d: VoteData): int
  {
    d.upvotes - d.downvotes
  }

  // Lemmas about counting.

  lemma {:induction false} CountOfFilter(s: seq<Vote>, p: Vote -> bool, q: Vote -> bool, pq: Vote -> bool)
    requires forall v :: pq(v) == (p(v) && q(v))
    ensures Count(Filter(s, p), q) == Count(s, pq)
  {
    if s != [] {
      CountOfFilter(s[1..], p, q, pq);
    }
  }

  /** Every vote is an upvote or a downvote. */
  lemma {:induction false} KindsPartition(s: seq<Vote>)
    ensures Count(s, OfKind(Upvote)) + Count(s, OfKind(Downvote)) == |s|
  {
    if s != [] {
      KindsPartition(s[1..]);
    }
  }

  lemma {:induction false} NoneMatch(s: seq<Vote>, p: Vote -> bool)
    requires forall i :: 0 <= i < |s| ==> !p(s[i])
    ensures Filter(s, p) == [] && Count(s, p) == 0
  {
    forall x | x in s
      ensures !p(x)
    {
      var i :| 0 <= i < |s| && s[i] == x;
    }
    CountZero(s, p);
  }

  lemma {:induction false} AllMatch(s: seq<Vote>, p: Vote -> bool)
    requires forall i :: 0 <= i < |s| ==> p(s[i])
    ensures Filter(s, p) == s
  {
    FilterAll(s, p);
  }

  /** With the invariant, `.single()` finds the caller's vote whenever there is one. */
  lemma {:induction false} AtMostOneMatch(rows: seq<Vote>, issueId: string, userId: string)
    requires OneVotePerVoter(rows)
    ensures Count(rows, ByVoter(issueId, userId)) <= 1
  {
    if rows != [] {
      var tail := rows[1..];
      assert OneVotePerVoter(tail) by {
        forall i, j | 0 <= i < |tail| && 0 <= j < |tail| && SameVoter(tail[i], tail[j])
          ensures i == j
        {
          assert tail[i] == rows[i + 1] && tail[j] == rows[j + 1];
        }
      }
      AtMostOneMatch(tail, issueId, userId);
      if ByVoter(issueId, userId)(rows[0]) {
        forall i | 0 <= i < |tail|
          ensures !ByVoter(issueId, userId)(tail[i])
        {
          assert tail[i] == rows[i + 1];
        }
        NoneMatch(tail, ByVoter(issueId, userId));
      }
    }
  }

  /** The existing vote sits at some index `k`, and no other row belongs to the same voter. */
  lemma {:induction false} LocateVote(rows: seq<Vote>, issueId: string, userId: string) returns (k: nat)
    requires OneVotePerVoter(rows)
    requires Single(rows, issueId, userId).Some?
    ensures k < |rows| && rows[k] == Single(rows, issueId, userId).value
    ensures Filter(rows[..k], ByVoter(issueId, userId)) == []
    ensures Filter(rows[k + 1..], ByVoter(issueId, userId)) == []
    ensures rows == rows[..k] + [rows[k]] + rows[k + 1..]
  {
    var v := Single(rows, issueId, userId).value;
    k :| 0 <= k < |rows| && rows[k] == v;
    var pre, post := rows[..k], rows[k + 1..];
    forall i | 0 <= i < |pre|
      ensures !ByVoter(issueId, userId)(pre[i])
    {
      assert pre[i] == rows[i];
    }
    forall i | 0 <= i < |post|
      ensures !ByVoter(issueId, userId)(post[i])
    {
      assert post[i] == rows[k + 1 + i];
    }
    NoneMatch(pre, ByVoter(issueId, userId));
    NoneMatch(post, ByVoter(issueId, userId));
    assert rows == pre + [rows[k]] + post;
  }

  /** Deleting by a unique id removes exactly the row at its index. */
  lemma {:induction false} DeleteAt(rows: seq<Vote>, k: nat)
    requires UniqueIds(rows) && k < |rows|
    ensures DeleteWhereId(rows, rows[k].id) == rows[..k] + rows[k + 1..]
  {
    var id := rows[k].id;
    var pre, post := rows[..k], rows[k + 1..];
    assert forall i :: 0 <= i < |pre| ==> pre[i] == rows[i];
    assert forall i :: 0 <= i < |post| ==> post[i] == rows[k + 1 + i];
    calc {
      DeleteWhereId(rows, id);
      { assert rows == pre + [rows[k]] + post; }
      Filter(pre + [rows[k]] + post, IdIsNot(id));
      { FilterAround(pre, rows[k], post, IdIsNot(id)); }
      Filter(pre, IdIsNot(id)) + [] + Filter(post, IdIsNot(id));
      { KeepOtherIds(pre, id); KeepOtherIds(post, id); }
      pre + [] + post;
    }
  }

  lemma {:induction false} KeepOtherIds(s: seq<Vote>, id: nat)
    requires forall i :: 0 <= i < |s| ==> s[i].id != id
    ensures Filter(s, IdIsNot(id)) == s
  {
    if s != [] {
      KeepOtherIds(s[1..], id);
    }
  }

  lemma {:induction false} DeleteKeepsIds(rows: seq<Vote>, id: nat, bound: nat)
    requires UniqueIds(rows) && IdsBelow(rows, bound)
    ensures UniqueIds(DeleteWhereId(rows, id)) && IdsBelow(DeleteWhereId(rows, id), bound)
  {
    if k :| 0 <= k < |rows| && rows[k].id == id {
      DeleteAt(rows, k);
      RemoveKeepsIds(rows, k, bound);
    } else {
      KeepOtherIds(rows, id);
    }
  }

  lemma {:induction false} RemoveKeepsIds(rows: seq<Vote>, k: nat, bound: nat)
    requires UniqueIds(rows) && IdsBelow(rows, bound) && k < |rows|
    ensures var r := rows[..k] + rows[k + 1..];
      UniqueIds(r) && IdsBelow(r, bound)
  {
    var r := rows[..k] + rows[k + 1..];
    assert forall i :: 0 <= i < |r| ==> r[i] == rows[if i < k then i else i + 1];
  }

  /** Updating by a unique id changes exactly the row at its index. */
  lemma {:induction false} UpdateAt(rows: seq<Vote>, k: nat, kind: VoteKind)
    requires UniqueIds(rows) && k < |rows|
    ensures SetKindWhereId(rows, rows[k].id, kind) == rows[..k] + [rows[k].(kind := kind)] + rows[k + 1..]
  {
    var r := SetKindWhereId(rows, rows[k].id, kind);
    var e := rows[..k] + [rows[k].(kind := kind)] + rows[k + 1..];
    assert |r| == |e|;
    forall i | 0 <= i < |r|
      ensures r[i] == e[i]
    {
      if i < k {
        assert e[i] == rows[i];
      } else if i > k {
        assert e[i] == rows[i];
      }
    }
  }

  // Properties of one `handleVote`.

  /** The vote toggle keeps the primary key and the one-vote-per-voter invariant. */
  lemma {:induction false} ApplyVoteKeepsInvariant(rows: seq<Vote>, issueId: string, userId: string, kind: VoteKind, freshId: nat)
    requires UniqueIds(rows) && IdsBelow(rows, freshId) && OneVotePerVoter(rows)
    ensures var r := ApplyVote(rows, issueId, userId, kind, freshId);
      UniqueIds(r) && IdsBelow(r, freshId + 1) && OneVotePerVoter(r)
  {
    match Single(rows, issueId, userId)
    case Some(existing) =>
      var k := LocateVote(rows, issueId, userId);
      if existing.kind == kind {
        DeleteAt(rows, k);
        RemoveKeepsInvariant(rows, k, freshId);
      } else {
        UpdateAt(rows, k, kind);
        ReplaceKeepsInvariant(rows, k, rows[k].(kind := kind), freshId);
      }
    case None =>
      AtMostOneMatch(rows, issueId, userId);
      AppendKeepsInvariant(rows, Vote(freshId, issueId, userId, kind));
  }

  lemma {:induction false} RemoveKeepsInvariant(rows: seq<Vote>, k: nat, bound: nat)
    requires UniqueIds(rows) && IdsBelow(rows, bound) && OneVotePerVoter(rows) && k < |rows|
    ensures var r := rows[..k] + rows[k + 1..];
      UniqueIds(r) && IdsBelow(r, bound + 1) && OneVotePerVoter(r)
  {
    var r := rows[..k] + rows[k + 1..];
    assert forall i :: 0 <= i < |r| ==> r[i] == rows[if i < k then i else i + 1];
  }

  lemma {:induction false} ReplaceKeepsInvariant(rows: seq<Vote>, k: nat, w: Vote, bound: nat)
    requires UniqueIds(rows) && IdsBelow(rows, bound) && OneVotePerVoter(rows) && k < |rows|
    requires w.id == rows[k].id && SameVoter(w, rows[k])
    ensures var r := rows[..k] + [w] + rows[k + 1..];
      UniqueIds(r) && IdsBelow(r, bound + 1) && OneVotePerVoter(r)
  {
    var r := rows[..k] + [w] + rows[k + 1..];
    assert forall i :: 0 <= i < |r| && i != k ==> r[i] == rows[i];
    assert r[k] == w;
  }

  lemma {:induction false} AppendKeepsInvariant(rows: seq<Vote>, v: Vote)
    requires UniqueIds(rows) && IdsBelow(rows, v.id) && OneVotePerVoter(rows)
    requires Count(rows, ByVoter(v.issueId, v.userId)) == 0
    ensures var r := rows + [v];
      UniqueIds(r) && IdsBelow(r, v.id + 1) && OneVotePerVoter(r)
  {
    CountZero(rows, ByVoter(v.issueId, v.userId));
    forall i | 0 <= i < |rows|
      ensures !SameVoter(rows[i], v)
    {
      assert rows[i] in rows;
    }
  }

  /** Rows of every other (issue, user) pair are exactly as before, in the same order. */
  lemma {:induction false} OthersUnchanged(rows: seq<Vote>, issueId: string, userId: string, kind: VoteKind, freshId: nat)
    requires UniqueIds(rows) && OneVotePerVoter(rows)
    ensures Filter(ApplyVote(rows, issueId, userId, kind, freshId), OtherVoters(issueId, userId))
         == Filter(rows, OtherVoters(issueId, userId))
  {
    var others := OtherVoters(issueId, userId);
    match Single(rows, issueId, userId)
    case Some(existing) =>
      var k := LocateVote(rows, issueId, userId);
      if existing.kind == kind {
        DeleteAt(rows, k);
        assert ApplyVote(rows, issueId, userId, kind, freshId) == rows[..k] + rows[k + 1..];
        DropIgnored(rows[..k], rows[k], rows[k + 1..], others);
      } else {
        UpdateAt(rows, k, kind);
        assert ApplyVote(rows, issueId, userId, kind, freshId) == rows[..k] + [rows[k].(kind := kind)] + rows[k + 1..];
        SwapIgnored(rows[..k], rows[k], rows[k].(kind := kind), rows[k + 1..], others);
      }
    case None =>
      assert ApplyVote(rows, issueId, userId, kind, freshId) == rows + [Vote(freshId, issueId, userId, kind)];
      FilterConcat(rows, [Vote(freshId, issueId, userId, kind)], others);
      FilterOne(Vote(freshId, issueId, userId, kind), others);
  }

  lemma {:induction false} DropIgnored(pre: seq<Vote>, x: Vote, post: seq<Vote>, p: Vote -> bool)
    requires !p(x)
    ensures Filter(pre + post, p) == Filter(pre + [x] + post, p)
  {
    FilterAround(pre, x, post, p);
    FilterConcat(pre, post, p);
  }

  lemma {:induction false} SwapIgnored(pre: seq<Vote>, x: Vote, y: Vote, post: seq<Vote>, p: Vote -> bool)
    requires !p(x) && !p(y)
    ensures Filter(pre + [y] + post, p) == Filter(pre + [x] + post, p)
  {
    FilterAround(pre, x, post, p);
    FilterAround(pre, y, post, p);
  }

  /** How one `handleVote` moves the caller's tally: insert, toggle off, or switch. */
  lemma {:induction false} ApplyVoteTally(rows: seq<Vote>, issueId: string, userId: string, kind: VoteKind, freshId: nat)
    requires UniqueIds(rows) && OneVotePerVoter(rows)
    ensures var before := Tally(rows, issueId, userId);
      var after := Tally(ApplyVote(rows, issueId, userId, kind, freshId), issueId, userId);
      var up := if kind == Upvote then 1 else 0;
      var down := 1 - up;
      match before.userVote
      case None =>
        after.userVote == Some(kind)
        && after.upvotes == before.upvotes + up && after.downvotes == before.downvotes + down
      case Some(k) =>
        if k == kind then
          after.userVote == None
          && after.upvotes + up == before.upvotes && after.downvotes + down == before.downvotes
        else
          after.userVote == Some(kind)
          && after.upvotes == before.upvotes + up - down && after.downvotes == before.downvotes + down - up
  {
    match Single(rows, issueId, userId)
    case Some(existing) =>
      var k := LocateVote(rows, issueId, userId);
      if existing.kind == kind {
        DeleteAt(rows, k);
        assert ApplyVote(rows, issueId, userId, kind, freshId) == rows[..k] + rows[k + 1..];
        TallyAfterDelete(rows, issueId, userId, k);
      } else {
        UpdateAt(rows, k, kind);
        assert ApplyVote(rows, issueId, userId, kind, freshId) == rows[..k] + [rows[k].(kind := kind)] + rows[k + 1..];
        TallyAfterSwitch(rows, issueId, userId, k, kind);
      }
    case None =>
      assert ApplyVote(rows, issueId, userId, kind, freshId) == rows + [Vote(freshId, issueId, userId, kind)];
      TallyAfterInsert(rows, issueId, userId, Vote(freshId, issueId, userId, kind));
  }

  lemma {:induction false} TallyAfterDelete(rows: seq<Vote>, issueId: string, userId: string, k: nat)
    requires k < |rows| && ByVoter(issueId, userId)(rows[k])
    requires Filter(rows[..k], ByVoter(issueId, userId)) == [] && Filter(rows[k + 1..], ByVoter(issueId, userId)) == []
    ensures var before := Tally(rows, issueId, userId);
      var after := Tally(rows[..k] + rows[k + 1..], issueId, userId);
      var up := if rows[k].kind == Upvote then 1 else 0;
      after.userVote == None && after.upvotes + up == before.upvotes && after.downvotes + 1 - up == before.downvotes
  {
    var pre, post := rows[..k], rows[k + 1..];
    assert rows == pre + [rows[k]] + post;
    CountAround(pre, rows[k], post, IssueAndKind(issueId, Upvote));
    CountAround(pre, rows[k], post, IssueAndKind(issueId, Downvote));
    CountConcat(pre, post, IssueAndKind(issueId, Upvote));
    CountConcat(pre, post, IssueAndKind(issueId, Downvote));
    CountConcat(pre, post, ByVoter(issueId, userId));
  }

  lemma {:induction false} TallyAfterSwitch(rows: seq<Vote>, issueId: string, userId: string, k: nat, kind: VoteKind)
    requires k < |rows| && ByVoter(issueId, userId)(rows[k]) && rows[k].kind != kind
    requires Filter(rows[..k], ByVoter(issueId, userId)) == [] && Filter(rows[k + 1..], ByVoter(issueId, userId)) == []
    ensures var before := Tally(rows, issueId, userId);
      var after := Tally(rows[..k] + [rows[k].(kind := kind)] + rows[k + 1..], issueId, userId);
      var up := if kind == Upvote then 1 else 0;
      after.userVote == Some(kind)
      && after.upvotes == before.upvotes + up - (1 - up) && after.downvotes == before.downvotes + (1 - up) - up
  {
    var pre, post, w := rows[..k], rows[k + 1..], rows[k].(kind := kind);
    var r := pre + [w] + post;
    assert rows == pre + [rows[k]] + post;
    CountAround(pre, rows[k], post, IssueAndKind(issueId, Upvote));
    CountAround(pre, rows[k], post, IssueAndKind(issueId, Downvote));
    CountAround(pre, w, post, IssueAndKind(issueId, Upvote));
    CountAround(pre, w, post, IssueAndKind(issueId, Downvote));
    FilterAround(pre, w, post, ByVoter(issueId, userId));
    assert Filter(r, ByVoter(issueId, userId)) == [w];
  }

  lemma {:induction false} TallyAfterInsert(rows: seq<Vote>, issueId: string, userId: string, v: Vote)
    requires OneVotePerVoter(rows) && Single(rows, issueId, userId).None?
    requires v.issueId == issueId && v.userId == userId
    ensures var before := Tally(rows, issueId, userId);
      var after := Tally(rows + [v], issueId, userId);
      var up := if v.kind == Upvote then 1 else 0;
      after.userVote == Some(v.kind) && after.upvotes == before.upvotes + up && after.downvotes == before.downvotes + 1 - up
  {
    AtMostOneMatch(rows, issueId, userId);
    CountConcat(rows, [v], IssueAndKind(issueId, Upvote));
    CountConcat(rows, [v], IssueAndKind(issueId, Downvote));
    FilterConcat(rows, [v], ByVoter(issueId, userId));
    assert Filter(rows, ByVoter(issueId, userId)) == [] by {
      assert |Filter(rows, ByVoter(issueId, userId))| == 0;
    }
    assert Filter(rows + [v], ByVoter(issueId, userId)) == [v];
  }

  /** Voting a different kind rewrites the kind of the same row (same id), and nothing else. */
  lemma {:induction false} SwitchInPlace(rows: seq<Vote>, issueId: string, userId: string, kind: VoteKind, freshId: nat)
    requires UniqueIds(rows) && OneVotePerVoter(rows)
    requires Single(rows, issueId, userId).Some? && Single(rows, issueId, userId).value.kind != kind
    ensures exists k :: (0 <= k < |rows| && rows[k] == Single(rows, issueId, userId).value
                         && ApplyVote(rows, issueId, userId, kind, freshId) == rows[k := rows[k].(kind := kind)])
  {
    var k := LocateVote(rows, issueId, userId);
    UpdateAt(rows, k, kind);
    assert rows[k := rows[k].(kind := kind)] == rows[..k] + [rows[k].(kind := kind)] + rows[k + 1..];
  }

  /** Voting the same kind twice from no vote leaves the table exactly as it was. */
  lemma {:induction false} ToggleTwiceRestores(rows: seq<Vote>, issueId: string, userId: string, kind: VoteKind, id1: nat, id2: nat)
    requires IdsBelow(rows, id1) && OneVotePerVoter(rows)
    requires Single(rows, issueId, userId).None?
    ensures ApplyVote(ApplyVote(rows, issueId, userId, kind, id1), issueId, userId, kind, id2) == rows
  {
    var v := Vote(id1, issueId, userId, kind);
    var once := rows + [v];
    AtMostOneMatch(rows, issueId, userId);
    assert Filter(rows, ByVoter(issueId, userId)) == [] by {
      assert |Filter(rows, ByVoter(issueId, userId))| == 0;
    }
    FilterConcat(rows, [v], ByVoter(issueId, userId));
    assert Single(once, issueId, userId) == Some(v);
    FilterConcat(rows, [v], IdIsNot(id1));
    AllMatch(rows, IdIsNot(id1));
  }

  /** Upvote, upvote again, then downvote, by one user on an issue with no votes: +1/0, 0/0, 0/1. */
  lemma {:induction false} UpUpDownScenario(issueId: string, userId: string)
    ensures var t1 := ApplyVote([], issueId, userId, Upvote, 0);
      var t2 := ApplyVote(t1, issueId, userId, Upvote, 1);
      var t3 := ApplyVote(t2, issueId, userId, Downvote, 1);
      Tally(t1, issueId, userId) == VoteData(1, 0, Some(Upvote))
      && Tally(t2, issueId, userId) == VoteData(0, 0, None)
      && Tally(t3, issueId, userId) == VoteData(0, 1, Some(Downvote))
  {
    var t1 := ApplyVote([], issueId, userId, Upvote, 0);
    ApplyVoteTally([], issueId, userId, Upvote, 0);
    ApplyVoteKeepsInvariant([], issueId, userId, Upvote, 0);
    ApplyVoteTally(t1, issueId, userId, Upvote, 1);
    var t2 := ApplyVote(t1, issueId, userId, Upvote, 1);
    ApplyVoteKeepsInvariant(t1, issueId, userId, Upvote, 1);
    ApplyVoteTally(t2, issueId, userId, Downvote, 1);
  }

  /** The table, as a class the components share; the store guarantees the primary key. */
  class VoteTable {
    var rows: seq<Vote>
    var nextId: nat

    ghost predicate Valid()
      reads this
    {
      UniqueIds(rows) && IdsBelow(rows, nextId)
    }

    constructor ()
      ensures Valid() && rows == []
    {
      rows := [];
      nextId := 0;
    }

    method SelectSingle(issueId: string, userId: string) returns (r: Option<Vote>)
      ensures r == Single(rows, issueId, userId)
    {
      r := Single(rows, issueId, userId);
    }

    method DeleteById(id: nat)
      requires Valid()
      modifies this
      ensures Valid() && nextId == old(nextId)
      ensures rows == DeleteWhereId(old(rows), id)
    {
      DeleteKeepsIds(rows, id, nextId);
      rows := DeleteWhereId(rows, id);
    }

    method UpdateKindById(id: nat, kind: VoteKind)
      requires Valid()
      modifies this
      ensures Valid() && nextId == old(nextId)
      ensures rows == SetKindWhereId(old(rows), id, kind)
    {
      rows := SetKindWhereId(rows, id, kind);
    }

    method Insert(issueId: string, userId: string, kind: VoteKind)
      requires Valid()
      modifies this
      ensures Valid() && nextId == old(nextId) + 1
      ensures rows == old(rows) + [Vote(old(nextId), issueId, userId, kind)]
    {
      rows := rows + [Vote(nextId, issueId, userId, kind)];
      nextId := nextId + 1;
    }
  }

  /**
   * `handleVote`: read the caller's vote, then delete it, switch it, or insert one.
   * `writeFailed` is the store refusing that write; the answer is not looked at, so the
   * table simply stays as it was.
   */
  method HandleVote(table: VoteTable, issueId: string, userId: string, kind: VoteKind, writeFailed: bool)
    requires table.Valid() && OneVotePerVoter(table.rows)
    modifies table
    ensures table.Valid() && OneVotePerVoter(table.rows)
    ensures writeFailed ==> table.rows == old(table.rows)
    ensures !writeFailed ==> table.rows == ApplyVote(old(table.rows), issueId, userId, kind, old(table.nextId))
  {
    ApplyVoteKeepsInvariant(table.rows, issueId, userId, kind, table.nextId);
    var existing := table.SelectSingle(issueId, userId);
    if !writeFailed {
      if existing.Some? {
        if existing.value.kind == kind {
          table.DeleteById(existing.value.id);
        } else {
          table.UpdateKindById(existing.value.id, kind);
        }
      } else {
        table.Insert(issueId, userId, kind);
      }
    }
  }
}
