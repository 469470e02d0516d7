/**
 * The dashboard overview: one pass over the issues' statuses counts every issue in `total` and
 * the open, in-progress and resolved ones in their own bucket; "closed" (or any other status)
 * is counted in `total` only. A failed query leaves the initial zeros.
 */
module IssueStats {
  import opened Domain
  import opened Seqs

  datatype Stats = Stats(total: nat, open: nat, inProgress: nat, resolved: nat)

  function HasStatus(status: string): Issue -> bool
  {
    (i: Issue) => i.status == status
  }

  /** The statuses that have no bucket of their own. */
  function Unbucketed(): Issue -> bool
  {
    (i: Issue) => i.status != "open" && i.status != "in_progress" && i.status != "resolved"
  }

  /** The reference counts: each bucket is the number of issues with that status. */
  function StatusCounts(issues: seq<Issue>): Stats
  {
    Stats(|issues|, Count(issues, HasStatus("open")), Count(issues, HasStatus("in_progress")),
      Count(issues, HasStatus("resolved")))
  }

  /** Appending one issue moves `total` and at most the one bucket named by its status. */
  lemma StatusCountsSnoc(issues: seq<Issue>, issue: Issue)
    ensures var before := StatusCounts(issues);
      StatusCounts(issues + [issue]) ==
        Stats(before.total + 1,
          before.open + (if issue.status == "open" then 1 else 0),
          before.inProgress + (if issue.status == "in_progress" then 1 else 0),
          before.resolved + (if issue.status == "resolved" then 1 else 0))
  {
    CountConcat(issues, [issue], HasStatus("open"));
    CountConcat(issues, [issue], HasStatus("in_progress"));
    CountConcat(issues, [issue], HasStatus("resolved"));
  }

  /** The `reduce` of the overview: one pass, one `else if` chain per issue. */
  method ComputeStats(issues: seq<Issue>) returns (s: Stats)
    ensures s == StatusCounts(issues)
  {
    s := Stats(0, 0, 0, 0);
    var k := 0;
    while k < |issues|
      invariant 0 <= k <= |issues|
      invariant s == StatusCounts(issues[..k])
    {
      var issue := issues[k];
      StatusCountsSnoc(issues[..k], issue);
      assert issues[..k + 1] == issues[..k] + [issue];
      s := s.(total := s.total + 1);
      if issue.status == "open" {
        s := s.(open := s.open + 1);
      } else if issue.status == "in_progress" {
        s := s.(inProgress := s.inProgress + 1);
      } else if issue.status == "resolved" {
        s := s.(resolved := s.resolved + 1);
      }
      k := k + 1;
    }
    assert issues[..k] == issues;
  }

  /**
   * The buckets are disjoint and, with the unbucketed statuses, cover every issue: so the
   * three cards never add up to more than the total.
   */
  lemma {:induction false} BucketsPartitionTotal(issues: seq<Issue>)
    ensures var s := StatusCounts(issues);
      s.open + s.inProgress + s.resolved + Count(issues, Unbucketed()) == s.total
    ensures var s := StatusCounts(issues);
      s.open + s.inProgress + s.resolved <= s.total
  {
    if issues != [] {
      BucketsPartitionTotal(issues[1..]);
    }
  }

  /** An overview with every issue closed shows the total and three empty buckets. */
  lemma AllClosedScenario(issues: seq<Issue>)
    requires forall i :: i in issues ==> i.status == "closed"
    ensures StatusCounts(issues) == Stats(|issues|, 0, 0, 0)
  {
    CountZero(issues, HasStatus("open"));
    CountZero(issues, HasStatus("in_progress"));
    CountZero(issues, HasStatus("resolved"));
  }

  class IssueStats {
    var stats: Stats
    var loading: bool

    constructor ()
      ensures stats == Stats(0, 0, 0, 0) && loading
    {
      stats := Stats(0, 0, 0, 0);
      loading := true;
    }

    /** The fetch effect: `data` is the status query, null when it failed. */
    method FetchStats(data: Option<seq<Issue>>)
      modifies this
      ensures data.Some? ==> stats == StatusCounts(data.value)
      ensures data.None? ==> stats == old(stats)
      ensures !loading
    {
      if data.Some? {
        stats := ComputeStats(data.value);
      }
      loading := false;
    }
  }
}
