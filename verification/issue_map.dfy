/**
 * The issue map: the issues that have both coordinates, newest first, drawn as markers on a
 * placeholder grid. A marker's colour is decided by status before priority, its position by
 * its index alone, and an urgent issue gets an extra icon. Clicking a marker or a list row
 * selects that issue; the close button clears the selection.
 */
module IssueMap {
  import opened Domain
  import opened Seqs
  import opened Badges
  import opened Display
  import opened Store

  /** The marker classes `getMarkerColor` returns. */
  datatype MarkerColor = BgSecondary | BgPrimary | BgDestructive | BgMutedForeground

  /** `getMarkerColor`: resolved and in-progress win over any priority. */
  function MarkerColorOf(issue: Issue): (c: MarkerColor)
    ensures c == BgSecondary <==> issue.status == "resolved"
    ensures c == BgPrimary <==> issue.status == "in_progress"
    ensures c == BgDestructive <==>
      issue.status != "resolved" && issue.status != "in_progress" && (issue.priority == "urgent" || issue.priority == "high")
    ensures c == BgMutedForeground <==>
      issue.status != "resolved" && issue.status != "in_progress" && issue.priority != "urgent" && issue.priority != "high"
  {
    if issue.status == "resolved" then BgSecondary
    else if issue.status == "in_progress" then BgPrimary
    else if issue.priority == "urgent" || issue.priority == "high" then BgDestructive
    else BgMutedForeground
  }

  /** An urgent issue that is being worked on is drawn as in progress, not as urgent. */
  lemma StatusBeforePriority(issue: Issue)
    requires issue.priority == "urgent" && issue.status == "in_progress"
    ensures MarkerColorOf(issue) == BgPrimary
  {
  }

  /** The marker's `top`, in percent: five rows, 15 points apart from 20. */
  function MarkerTop(index: nat): (r: nat)
    ensures 20 <= r <= 80 && (r - 20) % 15 == 0
  {
    20 + (index % 5) * 15
  }

  /** The marker's `left`, in percent: six columns, 12 points apart from 15. */
  function MarkerLeft(index: nat): (r: nat)
    ensures 15 <= r <= 75 && (r - 15) % 12 == 0
  {
    15 + (index % 6) * 12
  }

  /** `issue.priority === "urgent"`: only urgent (not high) issues get the extra icon. */
  predicate HasUrgentIcon(issue: Issue): (b: bool)
    ensures b ==> PriorityVariant(issue.priority) == Variant.Destructive
  {
    issue.priority == "urgent"
  }

  /** Positions depend on the index only: two markers share a spot exactly when their indices agree modulo 30. */
  lemma SamePositionIff(i: nat, j: nat)
    ensures (MarkerTop(i) == MarkerTop(j) && MarkerLeft(i) == MarkerLeft(j)) <==> i % 30 == j % 30
  {
    var r, s := i % 30, j % 30;
    assert i == 30 * (i / 30) + r && j == 30 * (j / 30) + s;
    ModOfMultiple(i / 30, r, 5);
    ModOfMultiple(i / 30, r, 6);
    ModOfMultiple(j / 30, s, 5);
    ModOfMultiple(j / 30, s, 6);
    if r % 5 == s % 5 && r % 6 == s % 6 {
      Residues(r, s);
    }
  }

  lemma ModOfMultiple(q: nat, r: nat, m: nat)
    requires m == 5 || m == 6
    ensures (30 * q + r) % m == r % m
  {
    assert 30 * q + r == m * ((30 / m) * q) + r;
  }

  /** Below 30, the residues modulo 5 and 6 determine the number. */
  lemma Residues(r: nat, s: nat)
    requires r < 30 && s < 30 && r % 5 == s % 5 && r % 6 == s % 6
    ensures r == s
  {
    var a, b := r / 5, s / 5;
    assert r == 5 * a + r % 5 && s == 5 * b + s % 5;
    assert a < 6 && b < 6;
  }

  /** The rows `fetchIssues` asks for: both coordinates present. */
  function HasCoordinates(): Issue -> bool
  {
    (i: Issue) => i.latitude.Some? && i.longitude.Some?
  }

  /** The map query over the issues table: located issues only, newest first. */
  function MapQuery(rows: seq<Issue>): (r: seq<Issue>)
    ensures forall i :: i in r ==> i in rows && i.latitude.Some? && i.longitude.Some?
    ensures multiset(r) == multiset(Filter(rows, HasCoordinates()))
    ensures forall a, b :: 0 <= a < b < |r| ==> r[a].createdAt >= r[b].createdAt
  {
    var located := Filter(rows, HasCoordinates());
    var r := IssuesNewestFirst(located);
    forall i | i in r
      ensures i in located
    {
      assert i in multiset(r);
    }
    r
  }

  /** What an empty list says. */
  const NoLocatedIssuesMessage: string :=
    "No issues with location data found. Issues need GPS coordinates to appear on the map."

  class IssueMap {
    const userId: string
    var issues: seq<Issue>
    var loading: bool
    var selectedIssue: Option<Issue>
    var userLocation: Option<(real, real)>

    constructor (userId: string)
      ensures this.userId == userId && issues == [] && loading
      ensures selectedIssue == None && userLocation == None
    {
      this.userId := userId;
      issues := [];
      loading := true;
      selectedIssue := None;
      userLocation := None;
    }

    /** `fetchIssues` (on mount and on every change of the issues table); `failed` is the store's error answer. */
    method FetchIssues(table: seq<Issue>, failed: bool)
      modifies this
      ensures !failed ==> issues == MapQuery(table)
      ensures failed ==> issues == old(issues)
      ensures !loading && selectedIssue == old(selectedIssue) && userLocation == old(userLocation)
      ensures forall i :: i in issues ==> HasCoordinates()(i) || i in old(issues)
    {
      if !failed {
        issues := MapQuery(table);
      }
      loading := false;
    }

    /** A click on a marker or a list row. */
    method SelectIssue(issue: Issue)
      modifies this
      ensures selectedIssue == Some(issue)
      ensures issues == old(issues) && loading == old(loading) && userLocation == old(userLocation)
    {
      selectedIssue := Some(issue);
    }

    /** The popup's close button. */
    method CloseDetails()
      modifies this
      ensures selectedIssue == None
      ensures issues == old(issues) && loading == old(loading) && userLocation == old(userLocation)
    {
      selectedIssue := None;
    }

    /** The success callback of the position request; a failed request changes nothing. */
    method LocationReceived(lat: real, lng: real)
      modifies this
      ensures userLocation == Some((lat, lng))
      ensures issues == old(issues) && loading == old(loading) && selectedIssue == old(selectedIssue)
    {
      userLocation := Some((lat, lng));
    }

    /** The popup's status badge and label. */
    function SelectedBadge(): (r: Option<(Variant, string)>)
      reads this
      ensures r.Some? <==> selectedIssue.Some?
      ensures r.Some? ==> r.value.0 == StatusVariant(selectedIssue.value.status)
      ensures r.Some? ==> r.value.1 == StatusLabel(selectedIssue.value.status)
      ensures r.Some? ==> |r.value.1| == |selectedIssue.value.status|
    {
      match selectedIssue
      case Some(issue) => Some((StatusVariant(issue.status), StatusLabel(issue.status)))
      case None => None
    }
  }
}
