/**
 * The admin user list: the filtered list is recomputed from the profiles and the two filter
 * controls whenever one of them changes; a role change rewrites the role of the profile with
 * the id and refetches. Any role string offered by the select is written as it is.
 */
module UserManagement {
  import opened Domain
  import opened Seqs
  import opened Text
  import opened Store

  /** The search: the lower-cased term occurs in the lower-cased full name or email. */
  predicate MatchesUser(u: Profile, term: string)
  {
    MatchesIgnoringCase(u.fullName, term) || MatchesIgnoringCase(u.email, term)
  }

  /** The reference selection: a profile is listed iff it passes the search and the role filter. */
  predicate UserSelected(u: Profile, term: string, roleFilter: string)
  {
    MatchesUser(u, term) && (roleFilter == "all" || u.role == roleFilter)
  }

  function UserSelectedBy(term: string, roleFilter: string): Profile -> bool
  {
    (u: Profile) => UserSelected(u, term, roleFilter)
  }

  function UserSearch(term: string): Profile -> bool
  {
    (u: Profile) => MatchesUser(u, term)
  }

  function RoleIs(role: string): Profile -> bool
  {
    (u: Profile) => u.role == role
  }

  function RoleFilter(roleFilter: string): Profile -> bool
  {
    (u: Profile) => roleFilter == "all" || u.role == roleFilter
  }

  /** `filterUsers`: the search applies only to a non-empty term, the role filter only when not "all". */
  function FilterUsers(users: seq<Profile>, term: string, roleFilter: string): (r: seq<Profile>)
    ensures r == Filter(users, UserSelectedBy(term, roleFilter))
    ensures Sub(r, users)
    ensures forall u :: u in r ==> u in users && UserSelected(u, term, roleFilter)
    ensures forall k :: 0 <= k < |users| && UserSelected(users[k], term, roleFilter) ==> users[k] in r
    ensures term == "" && roleFilter == "all" ==> r == users
  {
    var bySearch := if term != "" then Filter(users, UserSearch(term)) else users;
    var r := if roleFilter != "all" then Filter(bySearch, RoleIs(roleFilter)) else bySearch;
    GuardedUserFiltersAreOneFilter(users, term, roleFilter);
    FilterIsSub(users, UserSelectedBy(term, roleFilter));
    if term == "" && roleFilter == "all" then
      assert r == users;
      r
    else r
  }

  /** Skipping an inactive filter is the same as applying it: the chain is one filter by `UserSelected`. */
  lemma GuardedUserFiltersAreOneFilter(users: seq<Profile>, term: string, roleFilter: string)
    ensures var bySearch := if term != "" then Filter(users, UserSearch(term)) else users;
      var r := if roleFilter != "all" then Filter(bySearch, RoleIs(roleFilter)) else bySearch;
      r == Filter(users, UserSelectedBy(term, roleFilter))
  {
    var bySearch := Filter(users, UserSearch(term));
    if term == "" {
      forall u | u in users
        ensures UserSearch(term)(u)
      {
        MatchesEmpty(u.fullName);
      }
      FilterAll(users, UserSearch(term));
    }
    if roleFilter == "all" {
      FilterAll(bySearch, RoleFilter(roleFilter));
    } else {
      FilterExt(bySearch, RoleIs(roleFilter), RoleFilter(roleFilter));
    }
    FilterFilter(users, UserSearch(term), RoleFilter(roleFilter), UserSelectedBy(term, roleFilter));
  }

  /** The message shown for an empty list. */
  function EmptyMessage(term: string, roleFilter: string): (r: string)
    ensures r == "No users match your filters." <==> term != "" || roleFilter != "all"
    ensures r == "No users registered yet." <==> term == "" && roleFilter == "all"
  {
    if term != "" || roleFilter != "all" then "No users match your filters." else "No users registered yet."
  }

  /** After a successful promotion, the refetched list shows the promoted user under the "admin" role filter. */
  lemma PromotedUserListedAsAdmin(rows: seq<Profile>, k: nat)
    requires k < |rows|
    ensures var r := SetRoleWhereId(rows, rows[k].id, "admin");
      r[k] == rows[k].(role := "admin") && r[k] in FilterUsers(ProfilesNewestFirst(r), "", "admin")
  {
    var r := SetRoleWhereId(rows, rows[k].id, "admin");
    var listed := ProfilesNewestFirst(r);
    assert r[k] in multiset(listed);
    MatchesEmpty(r[k].fullName);
    assert UserSelected(r[k], "", "admin");
  }

  /** A role change leaves every other profile where and as it was. */
  lemma RoleChangeKeepsOthers(rows: seq<Profile>, id: string, role: string)
    ensures var r := SetRoleWhereId(rows, id, role);
      |r| == |rows| && forall i :: 0 <= i < |rows| && rows[i].id != id ==> r[i] == rows[i]
  {
    SetRoleWhereIdFrame(rows, id, role);
  }

  class UserManagement {
    var users: seq<Profile>
    var filteredUsers: seq<Profile>
    var loading: bool
    var searchTerm: string
    var roleFilter: string

    /** The effect on `[users, searchTerm, roleFilter]` keeps the list current. */
    ghost predicate Valid()
      reads this
    {
      filteredUsers == FilterUsers(users, searchTerm, roleFilter)
    }

    constructor ()
      ensures Valid() && users == [] && loading && searchTerm == "" && roleFilter == "all"
    {
      users := [];
      filteredUsers := [];
      loading := true;
      searchTerm := "";
      roleFilter := "all";
    }

    method Refilter()
      modifies this
      ensures Valid()
      ensures users == old(users) && loading == old(loading)
      ensures searchTerm == old(searchTerm) && roleFilter == old(roleFilter)
    {
      filteredUsers := FilterUsers(users, searchTerm, roleFilter);
    }

    /** `fetchUsers`: `data` is the newest-first profile query, null when it failed. */
    method FetchUsers(data: Option<seq<Profile>>)
      modifies this
      ensures Valid() && !loading
      ensures users == if data.Some? then data.value else old(users)
      ensures searchTerm == old(searchTerm) && roleFilter == old(roleFilter)
    {
      if data.Some? {
        users := data.value;
      }
      loading := false;
      Refilter();
    }

    method SetSearchTerm(term: string)
      modifies this
      ensures Valid() && searchTerm == term && users == old(users) && roleFilter == old(roleFilter)
    {
      searchTerm := term;
      Refilter();
    }

    method SetRoleFilter(role: string)
      modifies this
      ensures Valid() && roleFilter == role && users == old(users) && searchTerm == old(searchTerm)
    {
      roleFilter := role;
      Refilter();
    }

    /**
     * `updateUserRole`: `failed` is the store's error answer; on success the profile's role is
     * rewritten and the list refetched newest first (`refetchFailed` is that query's null
     * answer, which keeps the old list).
     */
    method UpdateUserRole(table: ProfileTable, userId: string, newRole: string, failed: bool, refetchFailed: bool)
      requires Valid()
      modifies this, table
      ensures failed ==> table.rows == old(table.rows) && users == old(users) && loading == old(loading)
      ensures !failed ==> table.rows == SetRoleWhereId(old(table.rows), userId, newRole)
      ensures !failed ==> !loading
      ensures !failed && !refetchFailed ==> users == ProfilesNewestFirst(table.rows)
      ensures !failed && refetchFailed ==> users == old(users)
      ensures Valid()
      ensures searchTerm == old(searchTerm) && roleFilter == old(roleFilter)
    {
      if !failed {
        table.UpdateRoleById(userId, newRole);
        FetchUsers(if refetchFailed then None else Some(ProfilesNewestFirst(table.rows)));
      }
    }
  }
}
