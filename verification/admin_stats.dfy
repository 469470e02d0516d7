/**
 * The admin overview: the same status buckets as the dashboard, the number of profiles
 * (`count || 0`), and the number of issues created on the viewer's local calendar day.
 * Nothing is updated when the issue query fails, whatever the profile count says.
 */
module AdminStats {
  import opened Domain
  import opened Seqs
  import opened IssueStats

  datatype AdminStatsData = AdminStatsData(
    totalIssues: nat,
    openIssues: nat,
    inProgressIssues: nat,
    resolvedIssues: nat,
    totalUsers: nat,
    todayIssues: nat)

  /** `new Date(created_at).toDateString() === today`: the same local day as `now`. */
  function CreatedOnDayOf(now: Timestamp, utcOffsetMs: int): Issue -> bool
  {
    (i: Issue) => LocalDay(i.createdAt, utcOffsetMs) == LocalDay(now, utcOffsetMs)
  }

  /** A local day is a window of `MsPerDay` milliseconds starting at local midnight. */
  lemma SameDayWindow(t: Timestamp, now: Timestamp, utcOffsetMs: int)
    ensures var day := LocalDay(now, utcOffsetMs);
      LocalDay(t, utcOffsetMs) == day <==>
        day * MsPerDay <= t + utcOffsetMs < day * MsPerDay + MsPerDay
  {
    var day := LocalDay(now, utcOffsetMs);
    var d := LocalDay(t, utcOffsetMs);
    var x := t + utcOffsetMs;
    assert d * MsPerDay <= x < d * MsPerDay + MsPerDay;
    if d < day {
      assert d * MsPerDay + MsPerDay <= day * MsPerDay;
    } else if d > day {
      assert day * MsPerDay + MsPerDay <= d * MsPerDay;
    }
  }

  /** `userCount || 0`: a missing (or zero) count shows 0. */
  function UserCount(userCount: Option<nat>): (n: nat)
    ensures userCount.Some? ==> n == userCount.value
    ensures userCount.None? ==> n == 0
  {
    if userCount.Some? then userCount.value else 0
  }

  /** The statistics shown for a successful fetch. */
  function AdminCounts(issues: seq<Issue>, userCount: Option<nat>, now: Timestamp, utcOffsetMs: int): (r: AdminStatsData)
    ensures r.totalIssues == |issues| && r.todayIssues <= r.totalIssues
    ensures r.openIssues + r.inProgressIssues + r.resolvedIssues <= r.totalIssues
    ensures r.todayIssues == Count(issues, CreatedOnDayOf(now, utcOffsetMs))
    ensures r.totalUsers == UserCount(userCount)
  {
    var s := StatusCounts(issues);
    BucketsPartitionTotal(issues);
    AdminStatsData(s.total, s.open, s.inProgress, s.resolved, UserCount(userCount),
      Count(issues, CreatedOnDayOf(now, utcOffsetMs)))
  }

  /** The admin buckets are the dashboard buckets. */
  lemma AdminAgreesWithDashboard(issues: seq<Issue>, userCount: Option<nat>, now: Timestamp, utcOffsetMs: int)
    ensures var r := AdminCounts(issues, userCount, now, utcOffsetMs);
      Stats(r.totalIssues, r.openIssues, r.inProgressIssues, r.resolvedIssues) == StatusCounts(issues)
  {
  }

  /** An issue created at the moment of the fetch is counted as today's. */
  lemma {:induction false} CreatedNowCounts(issues: seq<Issue>, now: Timestamp, utcOffsetMs: int)
    requires forall i :: i in issues ==> i.createdAt == now
    ensures AdminCounts(issues, None, now, utcOffsetMs).todayIssues == |issues|
  {
    if issues != [] {
      assert issues[0] in issues;
      forall i | i in issues[1..]
        ensures i.createdAt == now
      {
      }
      CreatedNowCounts(issues[1..], now, utcOffsetMs);
    }
  }

  /** An issue created a full day or more before now is not today's. */
  lemma OlderThanADayNotToday(issue: Issue, now: Timestamp, utcOffsetMs: int)
    requires issue.createdAt + MsPerDay <= now
    ensures !CreatedOnDayOf(now, utcOffsetMs)(issue)
  {
    SameDayWindow(issue.createdAt, now, utcOffsetMs);
    SameDayWindow(now, now, utcOffsetMs);
  }

  class AdminStats {
    var stats: AdminStatsData
    var loading: bool

    constructor ()
      ensures stats == AdminStatsData(0, 0, 0, 0, 0, 0) && loading
    {
      stats := AdminStatsData(0, 0, 0, 0, 0, 0);
      loading := true;
    }

    /**
     * The fetch effect: `issues` is the issue query (null when it failed), `userCount` the
     * profile count, `now` and `utcOffsetMs` the viewer's clock and time zone.
     */
    method FetchStats(issues: Option<seq<Issue>>, userCount: Option<nat>, now: Timestamp, utcOffsetMs: int)
      modifies this
      ensures issues.Some? ==> stats == AdminCounts(issues.value, userCount, now, utcOffsetMs)
      ensures issues.None? ==> stats == old(stats)
      ensures !loading
    {
      if issues.Some? {
        var todayIssues := |Filter(issues.value, CreatedOnDayOf(now, utcOffsetMs))|;
        var s := ComputeStats(issues.value);
        stats := AdminStatsData(s.total, s.open, s.inProgress, s.resolved, UserCount(userCount), todayIssues);
      }
      loading := false;
    }
  }
}
