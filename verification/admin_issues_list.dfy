/**
 * The admin issue list: the filtered list is recomputed from the issues and the three filter
 * controls whenever one of them changes, and a status change rewrites one row of the issues
 * table (setting `resolved_at` exactly for "resolved") and refetches. There is no transition
 * rule and no role check here; the only admin gate is the page guard.
 */
module AdminIssuesList {
  import opened Domain
  import opened Seqs
  import opened Store
  import opened IssueSearch

  function SearchFilter(term: string): Issue -> bool
  {
    (i: Issue) => MatchesSearch(i, term)
  }

  /** The status filter, with "all" keeping everything. */
  function StatusFilter(statusFilter: string): Issue -> bool
  {
    (i: Issue) => statusFilter == "all" || i.status == statusFilter
  }

  function PriorityFilter(priorityFilter: string): Issue -> bool
  {
    (i: Issue) => priorityFilter == "all" || i.priority == priorityFilter
  }

  /** The reference selection: an issue is listed iff it passes all three filters at once. */
  predicate Selected(i: Issue, term: string, statusFilter: string, priorityFilter: string)
  {
    MatchesSearch(i, term)
    && (statusFilter == "all" || i.status == statusFilter)
    && (priorityFilter == "all" || i.priority == priorityFilter)
  }

  function SelectedBy(term: string, statusFilter: string, priorityFilter: string): Issue -> bool
  {
    (i: Issue) => Selected(i, term, statusFilter, priorityFilter)
  }

  function SearchAndStatus(term: string, statusFilter: string): Issue -> bool
  {
    (i: Issue) => MatchesSearch(i, term) && (statusFilter == "all" || i.status == statusFilter)
  }

  /** `filterIssues`: each filter is applied only when active (a non-empty term, a filter not "all"). */
  function FilterIssues(issues: seq<Issue>, term: string, statusFilter: string, priorityFilter: string): (r: seq<Issue>)
    ensures r == Filter(issues, SelectedBy(term, statusFilter, priorityFilter))
    ensures Sub(r, issues)
    ensures forall i :: i in r ==> i in issues && Selected(i, term, statusFilter, priorityFilter)
    ensures forall k :: 0 <= k < |issues| && Selected(issues[k], term, statusFilter, priorityFilter) ==> issues[k] in r
    ensures term == "" && statusFilter == "all" && priorityFilter == "all" ==> r == issues
  {
    var bySearch := if term != "" then Filter(issues, SearchFilter(term)) else issues;
    var byStatus := if statusFilter != "all" then Filter(bySearch, StatusIs(statusFilter)) else bySearch;
    var r := if priorityFilter != "all" then Filter(byStatus, PriorityIs(priorityFilter)) else byStatus;
    GuardedFiltersAreOneFilter(issues, term, statusFilter, priorityFilter);
    FilterIsSub(issues, SelectedBy(term, statusFilter, priorityFilter));
    if term == "" && statusFilter == "all" && priorityFilter == "all" then
      assert r == issues;
      r
    else r
  }

  function StatusIs(status: string): Issue -> bool
  {
    (i: Issue) => i.status == status
  }

  function PriorityIs(priority: string): Issue -> bool
  {
    (i: Issue) => i.priority == priority
  }

  /** Skipping an inactive filter is the same as applying it: the chain is one filter by `Selected`. */
  lemma GuardedFiltersAreOneFilter(issues: seq<Issue>, term: string, statusFilter: string, priorityFilter: string)
    ensures var bySearch := if term != "" then Filter(issues, SearchFilter(term)) else issues;
      var byStatus := if statusFilter != "all" then Filter(bySearch, StatusIs(statusFilter)) else bySearch;
      var r := if priorityFilter != "all" then Filter(byStatus, PriorityIs(priorityFilter)) else byStatus;
      r == Filter(issues, SelectedBy(term, statusFilter, priorityFilter))
  {
    var bySearch := Filter(issues, SearchFilter(term));
    if term == "" {
      forall i | i in issues
        ensures SearchFilter(term)(i)
      {
        EmptyTermMatches(i);
      }
      FilterAll(issues, SearchFilter(term));
    }
    var byStatus := Filter(bySearch, StatusFilter(statusFilter));
    if statusFilter == "all" {
      FilterAll(bySearch, StatusFilter(statusFilter));
    } else {
      FilterExt(bySearch, StatusIs(statusFilter), StatusFilter(statusFilter));
    }
    FilterFilter(issues, SearchFilter(term), StatusFilter(statusFilter), SearchAndStatus(term, statusFilter));
    if priorityFilter == "all" {
      FilterAll(byStatus, PriorityFilter(priorityFilter));
    } else {
      FilterExt(byStatus, PriorityIs(priorityFilter), PriorityFilter(priorityFilter));
    }
    FilterFilter(issues, SearchAndStatus(term, statusFilter), PriorityFilter(priorityFilter),
      SelectedBy(term, statusFilter, priorityFilter));
  }

  /** The message shown for an empty list. */
  function EmptyMessage(term: string, statusFilter: string, priorityFilter: string): (r: string)
    ensures r == "No issues match your filters." <==> term != "" || statusFilter != "all" || priorityFilter != "all"
    ensures r == "No issues reported yet." <==> term == "" && statusFilter == "all" && priorityFilter == "all"
  {
    if term != "" || statusFilter != "all" || priorityFilter != "all" then "No issues match your filters."
    else "No issues reported yet."
  }

  /** The `resolved_at` written with a new status: the current time for "resolved", null otherwise. */
  function ResolvedAtFor(newStatus: string, now: Timestamp): (r: Option<Timestamp>)
    ensures r.Some? <==> newStatus == "resolved"
    ensures r.Some? ==> r.value == now
  {
    if newStatus == "resolved" then Some(now) else None
  }

  /** An issue row after `updateIssueStatus`. */
  function WithStatus(issue: Issue, newStatus: string, now: Timestamp): (r: Issue)
    ensures r.status == newStatus && ResolvedConsistent(r)
    ensures r == issue.(status := r.status, resolvedAt := r.resolvedAt)
  {
    issue.(status := newStatus, resolvedAt := ResolvedAtFor(newStatus, now))
  }

  /** No transition is rejected: every status offered by the select is reachable from any row. */
  lemma AnyStatusReachable(issue: Issue, newStatus: string, now: Timestamp)
    requires newStatus in {"open", "in_progress", "resolved", "closed"}
    ensures WithStatus(issue, newStatus, now).status == newStatus
    ensures WithStatus(issue, newStatus, now).resolvedAt.Some? <==> newStatus == "resolved"
  {
  }

  /** The last status change decides the row: earlier changes leave no trace. */
  lemma LastChangeWins(issue: Issue, s1: string, t1: Timestamp, s2: string, t2: Timestamp)
    ensures WithStatus(WithStatus(issue, s1, t1), s2, t2) == WithStatus(issue, s2, t2)
  {
  }

  predicate AllConsistent(rows: seq<Issue>)
  {
    forall i :: 0 <= i < |rows| ==> ResolvedConsistent(rows[i])
  }

  /** The table-level update rewrites exactly the rows with the id, and keeps the resolved_at rule. */
  lemma StatusUpdateOnTable(rows: seq<Issue>, id: string, newStatus: string, now: Timestamp)
    requires AllConsistent(rows)
    ensures var r := SetStatusWhereId(rows, id, newStatus, ResolvedAtFor(newStatus, now));
      AllConsistent(r)
      && forall i :: 0 <= i < |rows| ==>
           r[i] == (if rows[i].id == id then WithStatus(rows[i], newStatus, now) else rows[i])
  {
  }

  /** After a status change the refetched list holds the rewritten row. */
  lemma StatusChangeListed(rows: seq<Issue>, newStatus: string, now: Timestamp, k: nat)
    requires k < |rows|
    ensures var r := SetStatusWhereId(rows, rows[k].id, newStatus, ResolvedAtFor(newStatus, now));
      WithStatus(rows[k], newStatus, now) in IssuesNewestFirst(r)
  {
    var r := SetStatusWhereId(rows, rows[k].id, newStatus, ResolvedAtFor(newStatus, now));
    assert r[k] == WithStatus(rows[k], newStatus, now);
    assert r[k] in multiset(IssuesNewestFirst(r));
  }

  class AdminIssuesList {
    var issues: seq<Issue>
    var filteredIssues: seq<Issue>
    var loading: bool
    var searchTerm: string
    var statusFilter: string
    var priorityFilter: string

    /** The effect on `[issues, searchTerm, statusFilter, priorityFilter]` keeps the list current. */
    ghost predicate Valid()
      reads this
    {
      filteredIssues == FilterIssues(issues, searchTerm, statusFilter, priorityFilter)
    }

    constructor ()
      ensures Valid() && issues == [] && loading
      ensures searchTerm == "" && statusFilter == "all" && priorityFilter == "all"
    {
      issues := [];
      filteredIssues := [];
      loading := true;
      searchTerm := "";
      statusFilter := "all";
      priorityFilter := "all";
    }

    method Refilter()
      modifies this
      ensures Valid()
      ensures issues == old(issues) && loading == old(loading)
      ensures searchTerm == old(searchTerm) && statusFilter == old(statusFilter) && priorityFilter == old(priorityFilter)
    {
      filteredIssues := FilterIssues(issues, searchTerm, statusFilter, priorityFilter);
    }

    /** `fetchIssues`: `data` is the newest-first issue query, null when it failed. */
    method FetchIssues(data: Option<seq<Issue>>)
      modifies this
      ensures Valid() && !loading
      ensures issues == if data.Some? then data.value else old(issues)
      ensures searchTerm == old(searchTerm) && statusFilter == old(statusFilter) && priorityFilter == old(priorityFilter)
    {
      if data.Some? {
        issues := data.value;
      }
      loading := false;
      Refilter();
    }

    method SetSearchTerm(term: string)
      modifies this
      ensures Valid() && searchTerm == term && issues == old(issues)
      ensures statusFilter == old(statusFilter) && priorityFilter == old(priorityFilter)
    {
      searchTerm := term;
      Refilter();
    }

    method SetStatusFilter(status: string)
      modifies this
      ensures Valid() && statusFilter == status && issues == old(issues)
      ensures searchTerm == old(searchTerm) && priorityFilter == old(priorityFilter)
    {
      statusFilter := status;
      Refilter();
    }

    method SetPriorityFilter(priority: string)
      modifies this
      ensures Valid() && priorityFilter == priority && issues == old(issues)
      ensures searchTerm == old(searchTerm) && statusFilter == old(statusFilter)
    {
      priorityFilter := priority;
      Refilter();
    }

    /**
     * `updateIssueStatus`: `failed` is the store's error answer; on success the row is
     * rewritten and the list refetched newest first (`refetchFailed` is that query's null
     * answer, which keeps the old list).
     */
    method UpdateIssueStatus(table: IssueTable, issueId: string, newStatus: string, now: Timestamp, failed: bool, refetchFailed: bool)
      requires Valid()
      modifies this, table
      ensures failed ==> table.rows == old(table.rows) && issues == old(issues) && loading == old(loading)
      ensures !failed ==> table.rows == SetStatusWhereId(old(table.rows), issueId, newStatus, ResolvedAtFor(newStatus, now))
      ensures !failed ==> !loading
      ensures !failed && !refetchFailed ==> issues == IssuesNewestFirst(table.rows)
      ensures !failed && refetchFailed ==> issues == old(issues)
      ensures Valid()
      ensures searchTerm == old(searchTerm) && statusFilter == old(statusFilter) && priorityFilter == old(priorityFilter)
    {
      if !failed {
        table.UpdateStatusById(issueId, newStatus, ResolvedAtFor(newStatus, now));
        FetchIssues(if refetchFailed then None else Some(IssuesNewestFirst(table.rows)));
      }
    }
  }
}
