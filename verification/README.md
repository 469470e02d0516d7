# Civic issue reporting — a Dafny model of the component logic

The application lets citizens report local issues (potholes, broken lights, litter) with a title,
a description, an address, optional GPS coordinates and an optional photo. Others can then browse,
search, comment on and vote on those issues. Administrators can filter the issue list, move an
issue through its statuses, change user roles and read aggregate statistics.

Almost all of the code is markup and calls to a hosted database. This project models the decision
logic inside the components, with the database abstracted as in-memory tables.

**Shared modules**
- `Domain`: issues, profiles, votes, comments, `Option`, millisecond timestamps and the local day.
- `Seqs`: order-preserving subsequence (`Sub`), `Filter`, `Count` and an insertion sort.
- `Text`: ASCII case, substring search, trimming, split/join, decimal rendering and parsing.
- `Badges`: the badge colour switches that several components repeat.
- `Display`: initials, author fallback, net-vote text, status label, vote-button highlighting.
- `Store`: the issues, profiles and comments tables as classes, with `.update().eq()`, `.single()` and the ordered comment query.
- `Votes`: the vote table and the vote toggle.

**One module per component**
- `IssueDetails`, `CommunityFeed`, `IssueSearch`, `AdminIssuesList`
- `Notifications`, `IssueStats`, `AdminStats`, `AdminAnalytics`
- `UserManagement`, `MapFilters`, `CommunityFilters`, `IssueMap`
- `IssueCard`, `IssueComments`, `IssueReportForm`

Components that hold state become classes whose methods update their fields. Each store answer
is a parameter: the rows a query returned, `None` for a failed query, or a `failed` flag for a
failed update or insert.

**The central invariant** is at most one vote per (issue, user). Only the store keeps it; the
components rely on it. `Votes.HandleVote` is proved to preserve it, and the tally and net lemmas
depend on it.

**Behaviour of the code that a reader might not expect (the model follows the code):**
- A status update checks neither the caller's role nor the transition. Any status can follow any
  other (`AdminIssuesList.AnyStatusReachable`).
- Status-change and new-issue toasts go to every subscriber, not only to the reporter
  (`Notifications.IssueToastsForEverySubscriber`).
- A comment toast checks only the reporter, never the comment's author. Reporters are notified of
  their own comments (`Notifications.SelfCommentNotified`).
- A change event whose old row lacks the status column announces every update of a mapped status
  (`Notifications.MissingOldStatusAlwaysAnnounces`).
- The report form does not require a category. An untouched form sends the empty string
  (`IssueReportForm.UnchosenCategorySent`).

## Model

| member | source | states |
|---|---|---|
| Seqs.Filter | components/admin/admin-issues-list.tsx:65-78 | `.filter` keeps exactly the elements satisfying the predicate; its length is their count |
| Seqs.SortBy | components/map/issue-map.tsx:67 | `.order(...)`: a sorted permutation of the rows |
| Text.Lower | components/community/community-feed.tsx:130-132 | `toLowerCase` over ASCII: same length, each character lower-cased |
| Text.Upper | components/community/issue-card.tsx:80 | `toUpperCase` over ASCII: same length, each character upper-cased |
| Text.Contains | components/community/community-feed.tsx:130-132 | `includes`: a match needs the needle to fit in the haystack |
| Text.ContainsAt | components/community/community-feed.tsx:130-132 | an occurrence of the needle at any position makes `includes` true |
| Text.ContainsWitness | components/community/community-feed.tsx:130-132 | `includes` is true only when the needle occurs at some position |
| Text.Trim | components/issues/issue-comments.tsx:58 | `trim()`: the input with only white space cut from either end, none left at either end; empty iff the input is all white space |
| Text.TrimIdempotent | components/issues/issue-comments.tsx:66 | trimming twice is trimming once |
| Text.Split | components/community/issue-card.tsx:77 | `split(" ")`: at least one part, no part holds the separator |
| Text.Join | components/community/issue-card.tsx:77 | the inverse of `split(" ")`, used to state that splitting loses nothing: empty for no parts; otherwise starts with the first part, followed by the separator when there are more |
| Text.JoinSplit | components/community/issue-card.tsx:77-79 | joining the split parts restores the string |
| Text.LastPart | components/forms/issue-report-form.tsx:77 | `pop()` of a split: no separator, the whole string when there is none |
| Text.LastPartSuffix | components/forms/issue-report-form.tsx:77 | the string is a prefix, the separator and the last part |
| Text.ReplaceFirst | components/community/issue-card.tsx:92 | `replace` with a string pattern rewrites only the first occurrence |
| Text.IntToStringRoundTrip | components/issues/issue-details.tsx:220 | a rendered integer parses back to itself |
| Badges.StatusVariant | components/admin/admin-issues-list.tsx:100-111 | open→destructive, in_progress→default, resolved→secondary, others→outline, each iff |
| Badges.PriorityVariant | components/admin/admin-issues-list.tsx:113-126 | urgent/high→destructive, medium→default, low→secondary, others→outline, each iff |
| Badges.RoleVariant | components/admin/user-management.tsx:77-86 | admin→destructive, citizen→default, others→outline, never secondary |
| Badges.StatusVariantInjective | components/community/issue-card.tsx:39-50 | the three lifecycle statuses get three different colours |
| Store.SetStatusWhereId | components/admin/admin-issues-list.tsx:87-93 | the update keeps the table's length |
| Store.SetStatusWhereIdFrame | components/admin/admin-issues-list.tsx:87-93 | only rows with the id change, and in them only status and resolved_at |
| Store.SingleIssue | components/real-time/notification-system.tsx:74-78 | `.single()` yields a row iff exactly one row has the id, and that row |
| Store.SetRoleWhereId | components/admin/user-management.tsx:70 | the role update keeps the table's length |
| Store.SetRoleWhereIdFrame | components/admin/user-management.tsx:70 | only the role of profiles with the id changes |
| Store.SetRoleChangesAtMostOne | components/admin/user-management.tsx:70 | with unique ids, exactly that one profile's role is rewritten |
| Store.CommentsOf | components/issues/issue-comments.tsx:41-48 | the issue's comments, ascending by creation time, a permutation of the matching rows |
| Store.IssuesNewestFirst | components/admin/admin-issues-list.tsx:53 | `.order("created_at", { ascending: false })`: the same rows, newest first |
| Store.ProfilesNewestFirst | components/admin/user-management.tsx:41 | the same profiles, newest first |
| Store.IssueTable.UpdateStatusById | components/admin/admin-issues-list.tsx:87-93 | the table becomes the row-wise status update |
| Store.ProfileTable.UpdateRoleById | components/admin/user-management.tsx:70 | the table becomes the row-wise role update |
| Store.CommentTable.Insert | components/issues/issue-comments.tsx:63-67 | appends one row with a fresh id and keeps ids unique |
| Display.Initials | components/admin/user-management.tsx:134-138 | upper-cased first letters of the space-separated words; empty iff the name is blank |
| Display.InitialsAreWordStarts | components/community/issue-card.tsx:76-79 | `split(" ").map(n => n[0]).join("")` equals the word starts |
| Display.NoWordStartIffBlank | components/community/issue-card.tsx:76-80 | a name yields no initials iff it is empty or only spaces |
| Display.AvatarInitials | components/community/issue-card.tsx:76-80 | missing or blank name gives "U", otherwise the upper-cased word starts |
| Display.AuthorName | components/community/issue-card.tsx:84 | the name when present and non-empty, else "Anonymous" |
| Display.NetDisplay | components/community/issue-card.tsx:150 | a leading '+' iff the net is positive; the text parses back to the net |
| Display.StatusLabel | components/map/issue-map.tsx:200 | same length; only the first '_' becomes a space |
| Display.StatusLabelFirstOnly | components/map/issue-map.tsx:253 | "a_b_c" is labelled "a b_c" |
| Display.VoteButton | components/community/issue-card.tsx:129-139 | highlighted iff the user's vote is this kind; default for up, destructive for down |
| Display.NeverBothHighlighted | components/community/issue-card.tsx:129-139 | the two buttons are never both highlighted |
| Votes.Single | components/issues/issue-details.tsx:74-79 | the caller's vote iff exactly one row matches (issue, user) |
| Votes.SetKindWhereId | components/issues/issue-details.tsx:87 | the kind update keeps the table's length |
| Votes.Tally | components/issues/issue-details.tsx:60-66 | up/down count the issue's votes of each kind, summing to its votes; own vote iff exactly one row is the caller's, and then that row's kind |
| Votes.KindsPartition | components/issues/issue-details.tsx:60-61 | every vote is counted as exactly one of up or down |
| Votes.AtMostOneMatch | components/issues/issue-details.tsx:74-79 | under the invariant the caller has at most one vote |
| Votes.LocateVote | components/issues/issue-details.tsx:81 | the existing vote sits at one index and no other row is the caller's |
| Votes.DeleteAt | components/issues/issue-details.tsx:84 | deleting by a unique id removes exactly that row |
| Votes.UpdateAt | components/issues/issue-details.tsx:87 | updating by a unique id rewrites exactly that row |
| Votes.DeleteWhereId | components/issues/issue-details.tsx:83 | `.delete().eq("id", id)`: keeps exactly the rows with another id |
| Votes.ApplyVote | components/issues/issue-details.tsx:70-96 | one toggle adds at most one row, and any row it writes has the clicked kind |
| Votes.ApplyVoteKeepsInvariant | components/issues/issue-details.tsx:70-96 | the toggle keeps unique ids and at most one vote per (issue, user) |
| Votes.OthersUnchanged | components/issues/issue-details.tsx:70-96 | the votes of every other (issue, user) are unchanged and in order |
| Votes.ApplyVoteTally | components/issues/issue-details.tsx:81-96 | insert adds one of the kind; same kind removes it; other kind moves one across |
| Votes.SwitchInPlace | components/issues/issue-details.tsx:85-88 | a different kind rewrites the same row (same id) and nothing else |
| Votes.ToggleTwiceRestores | components/issues/issue-details.tsx:81-96 | voting the same kind twice from no vote restores the table |
| Votes.UpUpDownScenario | components/issues/issue-details.tsx:81-96 | up, up, down from empty gives 1/0, 0/0, 0/1 |
| Votes.VoteTable.SelectSingle | components/issues/issue-details.tsx:74-79 | returns `Single` of the table |
| Votes.VoteTable.DeleteById | components/issues/issue-details.tsx:84 | the table becomes the delete by id |
| Votes.VoteTable.UpdateKindById | components/issues/issue-details.tsx:87 | the table becomes the update by id |
| Votes.VoteTable.Insert | components/issues/issue-details.tsx:91-95 | appends one vote with a fresh id |
| Votes.HandleVote | components/issues/issue-details.tsx:70-96 | the table becomes `ApplyVote` of the old one, or stays as it was when the store refuses the write; the one-vote invariant is kept |
| IssueDetails.IssueDetails.constructor | components/issues/issue-details.tsx:36-40 | zero counts and no own vote |
| IssueDetails.IssueDetails.FetchVoteData | components/issues/issue-details.tsx:46-68 | the counts of the table, or 0/0 when the vote query fails; the own vote, or none when its lookup fails |
| IssueDetails.IssueDetails.HandleVote | components/issues/issue-details.tsx:70-100 | toggle on the table (unchanged when the write fails), invariant kept, then the refreshed vote data with its failure cases |
| IssueDetails.IssueDetails.NetVotesText | components/issues/issue-details.tsx:220 | "Net votes: " and a number that reads back as upvotes − downvotes |
| IssueDetails.IssueDetails.UpvoteButton | components/issues/issue-details.tsx:204 | filled iff the own vote is an upvote, otherwise outline |
| IssueDetails.IssueDetails.DownvoteButton | components/issues/issue-details.tsx:212 | red iff the own vote is a downvote, otherwise outline |
| IssueDetails.NetAfterVote | components/issues/issue-details.tsx:81-96 | one vote moves the net by ±1 (insert, toggle-off) or ±2 (switch) |
| IssueDetails.TwoUpvotesScenario | components/issues/issue-details.tsx:89-96 | two users' upvotes give net 2; a third user has no vote |
| CommunityFeed.Decorate | components/community/community-feed.tsx:77-87 | keeps the issue; up/down counts; vote_count = up − down; comment count; own vote iff one row is the caller's, and then its kind |
| CommunityFeed.DecorateAgreesWithPage | components/community/community-feed.tsx:77-86 | the feed's counts and own vote equal the issue page's tally |
| CommunityFeed.NoCommentsCountZero | components/community/community-feed.tsx:85 | an issue without comments shows 0 |
| CommunityFeed.DecorateAll | components/community/community-feed.tsx:58-89 | one decorated issue per row, same positions, each net = up − down |
| CommunityFeed.DecorateKeepsOrder | components/community/community-feed.tsx:54 | the newest-first order is kept |
| CommunityFeed.CommunityFeed.constructor | components/community/community-feed.tsx:36-38 | no issues, loading, empty search |
| CommunityFeed.CommunityFeed.FetchIssues | components/community/community-feed.tsx:44-94 | issues become the decorated rows; a failed query keeps them |
| CommunityFeed.CommunityFeed.HandleVote | components/community/community-feed.tsx:96-126 | toggle keeping the invariant (unchanged when the write fails), then the refetch |
| CommunityFeed.CommunityFeed.SetSearchTerm | components/community/community-feed.tsx:38 | only the term changes |
| CommunityFeed.CommunityFeed.FilteredIssues | components/community/community-feed.tsx:128-133 | kept iff the search matches; the empty term keeps all |
| CommunityFeed.CommunityFeed.EmptyMessage | components/community/community-feed.tsx:163 | the "matching your search" message iff a term is set |
| CommunityFeed.FilteredIsSubsequence | components/community/community-feed.tsx:128-133 | the search result is an order-preserving subsequence |
| IssueSearch.MatchesSearch | components/community/community-feed.tsx:128-133 | the lower-cased term occurs in the lower-cased title, description or address |
| IssueSearch.EmptyTermMatches | components/community/community-feed.tsx:128-133 | the empty term matches every issue |
| IssueSearch.SearchIgnoresTermCase | components/admin/admin-issues-list.tsx:67-69 | the term's case does not matter |
| AdminIssuesList.FilterIssues | components/admin/admin-issues-list.tsx:61-82 | one filter by all active predicates; subsequence; kept iff selected; inactive filters keep all |
| AdminIssuesList.GuardedFiltersAreOneFilter | components/admin/admin-issues-list.tsx:64-79 | the guarded chain equals one filter by the conjunction |
| AdminIssuesList.EmptyMessage | components/admin/admin-issues-list.tsx:177-181 | "No issues match your filters." iff a term or a filter is active |
| AdminIssuesList.ResolvedAtFor | components/admin/admin-issues-list.tsx:91 | resolved_at is set, to now, iff the new status is "resolved" |
| AdminIssuesList.WithStatus | components/admin/admin-issues-list.tsx:89-92 | the new status, a consistent resolved_at, every other field kept |
| AdminIssuesList.AnyStatusReachable | components/admin/admin-issues-list.tsx:84-93 | every offered status is reachable from any row |
| AdminIssuesList.LastChangeWins | components/admin/admin-issues-list.tsx:84-93 | the last status change alone decides the row |
| AdminIssuesList.StatusUpdateOnTable | components/admin/admin-issues-list.tsx:87-93 | only rows with the id change, and the resolved_at rule holds for the table |
| AdminIssuesList.StatusChangeListed | components/admin/admin-issues-list.tsx:53-95 | the refetched list holds the row with its new status |
| AdminIssuesList.AdminIssuesList.constructor | components/admin/admin-issues-list.tsx:29-34 | no issues, loading, empty term, both filters "all" |
| AdminIssuesList.AdminIssuesList.FetchIssues | components/admin/admin-issues-list.tsx:44-59 | the rows on success, unchanged on failure; list kept filtered |
| AdminIssuesList.AdminIssuesList.SetSearchTerm | components/admin/admin-issues-list.tsx:40-42 | the term changes and the list is refiltered |
| AdminIssuesList.AdminIssuesList.SetStatusFilter | components/admin/admin-issues-list.tsx:40-42 | the status filter changes and the list is refiltered |
| AdminIssuesList.AdminIssuesList.SetPriorityFilter | components/admin/admin-issues-list.tsx:40-42 | the priority filter changes and the list is refiltered |
| AdminIssuesList.AdminIssuesList.UpdateIssueStatus | components/admin/admin-issues-list.tsx:84-98 | on success the row-wise update with the resolved_at rule, then the table refetched newest first (a failed refetch keeps the old list) and loading cleared; nothing changes on failure |
| Notifications.StatusMessage | components/real-time/notification-system.tsx:27-31 | a message iff the status is in_progress, resolved or closed: "Issue is now being worked on", "Issue has been resolved", "Issue has been closed" |
| Notifications.StatusIcon | components/real-time/notification-system.tsx:33-37 | an icon iff the status is in_progress, resolved or closed: `Clock`, `CheckCircle` and `AlertTriangle` respectively |
| Notifications.OnIssueUpdate | components/real-time/notification-system.tsx:21-49 | a toast iff the status changed to a mapped one; titled with the issue |
| Notifications.OnIssueInsert | components/real-time/notification-system.tsx:56-64 | "New Issue Reported" with the issue title |
| Notifications.CommentToast | components/real-time/notification-system.tsx:81-83 | "New Comment", the bell, and the description `Someone commented on "<title>"` |
| Notifications.CommentToastQuotesTitle | components/real-time/notification-system.tsx:82 | the comment toast's description contains the quoted issue title |
| Notifications.OnCommentInsert | components/real-time/notification-system.tsx:70-86 | a toast iff `.single()` finds the issue and the subscriber reported it |
| Notifications.Dispatch | components/real-time/notification-system.tsx:18-88 | routes each change to its handler |
| Notifications.IssueToastsForEverySubscriber | components/real-time/notification-system.tsx:21-64 | issue toasts do not depend on the subscriber |
| Notifications.NoToastForUnmapped | components/real-time/notification-system.tsx:39-42 | no toast for "open" or any unmapped status |
| Notifications.NoToastWithoutStatusChange | components/real-time/notification-system.tsx:26 | no toast when the status is unchanged |
| Notifications.MissingOldStatusAlwaysAnnounces | components/real-time/notification-system.tsx:23-26 | an absent old status always announces a mapped status |
| Notifications.StartWorkScenario | components/real-time/notification-system.tsx:26-47 | open → in_progress toasts "Issue is now being worked on" |
| Notifications.CommentAuthorIgnored | components/real-time/notification-system.tsx:80 | the comment's author never matters |
| Notifications.SelfCommentNotified | components/real-time/notification-system.tsx:80-85 | a reporter commenting on their own issue is notified |
| Notifications.OthersIssueSilent | components/real-time/notification-system.tsx:80 | no toast on issues the subscriber did not report |
| IssueStats.StatusCountsSnoc | components/dashboard/issue-stats.tsx:27-31 | one more issue adds one to the total and to at most its own bucket |
| IssueStats.ComputeStats | components/dashboard/issue-stats.tsx:26-35 | the loop yields the counts of each status and the total |
| IssueStats.BucketsPartitionTotal | components/dashboard/issue-stats.tsx:29-31 | buckets plus unbucketed statuses equal the total, so buckets ≤ total |
| IssueStats.AllClosedScenario | components/dashboard/issue-stats.tsx:28-31 | closed issues count only in the total |
| IssueStats.IssueStats.constructor | components/dashboard/issue-stats.tsx:16-17 | zero stats, loading |
| IssueStats.IssueStats.FetchStats | components/dashboard/issue-stats.tsx:19-40 | the status counts on success, unchanged on failure, not loading |
| AdminStats.SameDayWindow | components/admin/admin-stats.tsx:39-40 | same local day iff within that day's window |
| AdminStats.CreatedOnDayOf | components/admin/admin-stats.tsx:39-40 | created on the same local day as now, for one fixed offset |
| AdminStats.UserCount | components/admin/admin-stats.tsx:55 | the count, or 0 when absent |
| AdminStats.AdminCounts | components/admin/admin-stats.tsx:38-58 | total, buckets ≤ total, today = count of same-day issues ≤ total, users |
| AdminStats.AdminAgreesWithDashboard | components/admin/admin-stats.tsx:42-48 | the admin buckets equal the dashboard's |
| AdminStats.CreatedNowCounts | components/admin/admin-stats.tsx:39-40 | issues created now all count as today's |
| AdminStats.OlderThanADayNotToday | components/admin/admin-stats.tsx:39-40 | an issue a full day old is not today's |
| AdminStats.AdminStats.constructor | components/admin/admin-stats.tsx:18-26 | all zeros, loading |
| AdminStats.AdminStats.FetchStats | components/admin/admin-stats.tsx:28-66 | the admin counts on success; zeros kept when the issue query fails |
| AdminAnalytics.CountBy | components/admin/admin-analytics.tsx:39-45 | distinct keys in first-occurrence order, each with its positive count, summing to the total |
| AdminAnalytics.ToStats | components/admin/admin-analytics.tsx:47-51 | one entry per key with its count and percentage = count·100/total |
| AdminAnalytics.SumPercentIsSumCounts | components/admin/admin-analytics.tsx:47-51 | the percentages sum to 100·(sum of counts)/total |
| AdminAnalytics.SharesMakeWhole | components/admin/admin-analytics.tsx:47-66 | when the counts cover the total the percentages sum to 100 |
| AdminAnalytics.ResolutionRate | components/admin/admin-analytics.tsx:69-70 | in [0,100]; 0 iff nothing resolved; 100 iff all resolved |
| AdminAnalytics.ToStatsCounts | components/admin/admin-analytics.tsx:41-51 | each entry's count is the number of issues with its key, and positive |
| AdminAnalytics.ToStatsCovers | components/admin/admin-analytics.tsx:41-51 | every occurring key has an entry |
| AdminAnalytics.ToStatsOrder | components/admin/admin-analytics.tsx:47 | entries are in first-occurrence order with distinct keys |
| AdminAnalytics.ToStatsShares | components/admin/admin-analytics.tsx:50 | every entry's percentage is its count's share of the total |
| AdminAnalytics.ToStatsDistribution | components/admin/admin-analytics.tsx:39-66 | the tally's entries form the distribution: distinct keys in first-occurrence order, each key's true positive count and its percentage of all issues, shares summing to 100 |
| AdminAnalytics.KeyStats | components/admin/admin-analytics.tsx:39-66 | the count-and-percentage list of one dimension is its distribution |
| AdminAnalytics.AdminAnalytics.constructor | components/admin/admin-analytics.tsx:21-24 | empty lists, rate 0, loading |
| AdminAnalytics.AdminAnalytics.FetchAnalytics | components/admin/admin-analytics.tsx:30-77 | both distributions and the resolution rate on success; unchanged on failure |
| UserManagement.FilterUsers | components/admin/user-management.tsx:49-65 | one filter by search and role; subsequence; kept iff selected; no filter keeps all |
| UserManagement.GuardedUserFiltersAreOneFilter | components/admin/user-management.tsx:52-62 | the guarded chain equals one filter by the conjunction |
| UserManagement.EmptyMessage | components/admin/user-management.tsx:125 | "No users match your filters." iff a term or role filter is active |
| UserManagement.PromotedUserListedAsAdmin | components/admin/user-management.tsx:38-70 | after the refetch, a promoted user appears under the admin filter |
| UserManagement.RoleChangeKeepsOthers | components/admin/user-management.tsx:70 | every other profile is unchanged |
| UserManagement.MatchesUser | components/admin/user-management.tsx:52-58 | the lower-cased term occurs in the lower-cased name or email |
| UserManagement.UserManagement.constructor | components/admin/user-management.tsx:24-28 | no users, loading, empty term, role filter "all" |
| UserManagement.UserManagement.FetchUsers | components/admin/user-management.tsx:38-47 | the rows on success, unchanged on failure; list kept filtered |
| UserManagement.UserManagement.SetSearchTerm | components/admin/user-management.tsx:34-36 | the term changes and the list is refiltered |
| UserManagement.UserManagement.SetRoleFilter | components/admin/user-management.tsx:34-36 | the role filter changes and the list is refiltered |
| UserManagement.UserManagement.UpdateUserRole | components/admin/user-management.tsx:67-75 | on success the role update by id, then the table refetched newest first (a failed refetch keeps the old list) and loading cleared; nothing changes on failure |
| MapFilters.Toggled | components/map/map-filters.tsx:28 | checking appends; unchecking removes every occurrence and keeps exactly the other values, in order |
| MapFilters.CheckThenUncheck | components/map/map-filters.tsx:34 | checking then unchecking a new value restores the list |
| MapFilters.UncheckIdempotent | components/map/map-filters.tsx:40 | unchecking twice is unchecking once |
| MapFilters.MapFilters.constructor | components/map/map-filters.tsx:18-21 | empty lists, showResolved true, nothing reported |
| MapFilters.MapFilters.UpdateFilters | components/map/map-filters.tsx:45-52 | reports exactly the given filters when a listener exists |
| MapFilters.MapFilters.HandleCategoryChange | components/map/map-filters.tsx:27-31 | only the category list changes; the new state is reported |
| MapFilters.MapFilters.HandleStatusChange | components/map/map-filters.tsx:33-37 | only the status list changes; the new state is reported |
| MapFilters.MapFilters.HandlePriorityChange | components/map/map-filters.tsx:39-43 | only the priority list changes; the new state is reported |
| MapFilters.MapFilters.HandleShowResolvedChange | components/map/map-filters.tsx:127-130 | only the switch changes; the new state is reported |
| MapFilters.MapFilters.ClearFilters | components/map/map-filters.tsx:54-60 | back to the initial state, which is reported |
| MapFilters.CheckUncheckRoundTrip | components/map/map-filters.tsx:27-31 | check then uncheck restores the panel and reports twice |
| CommunityFilters.WithKey | components/community/community-filters.tsx:27 | the key takes the value; the other three are kept |
| CommunityFilters.WithSameValue | components/community/community-filters.tsx:27 | writing a key's own value changes nothing |
| CommunityFilters.WithKeyCommutes | components/community/community-filters.tsx:27 | changes to different keys commute |
| CommunityFilters.LastValueWins | components/community/community-filters.tsx:27 | the last value written to a key wins |
| CommunityFilters.CommunityFilters.constructor | components/community/community-filters.tsx:19-24 | all "all" and "newest" |
| CommunityFilters.CommunityFilters.HandleFilterChange | components/community/community-filters.tsx:26-30 | the record changes at the key; the listener gets the new record |
| CommunityFilters.CommunityFilters.ClearFilters | components/community/community-filters.tsx:32-41 | the default record, reported |
| CommunityFilters.ClearTwice | components/community/community-filters.tsx:32-41 | clearing is idempotent on the record |
| IssueMap.MarkerColorOf | components/map/issue-map.tsx:91-96 | resolved, then in_progress, then urgent/high, else muted, each iff |
| IssueMap.StatusBeforePriority | components/map/issue-map.tsx:92-94 | an urgent in-progress issue is coloured by its status |
| IssueMap.HasUrgentIcon | components/map/issue-map.tsx:161 | the lightning icon appears only on urgent issues, whose priority badge is red in the card and the admin list |
| IssueMap.MarkerTop | components/map/issue-map.tsx:152 | in [20,80] on a 15-point grid |
| IssueMap.MarkerLeft | components/map/issue-map.tsx:153 | in [15,75] on a 12-point grid |
| IssueMap.SamePositionIff | components/map/issue-map.tsx:152-153 | two markers overlap iff their indices agree modulo 30 |
| IssueMap.MapQuery | components/map/issue-map.tsx:59-67 | only located issues, all of them, newest first |
| IssueMap.IssueMap.constructor | components/map/issue-map.tsx:32-35 | no issues, loading, nothing selected, no position |
| IssueMap.IssueMap.FetchIssues | components/map/issue-map.tsx:56-73 | the query's rows on success, unchanged on failure |
| IssueMap.IssueMap.SelectIssue | components/map/issue-map.tsx:155 | the clicked issue becomes selected |
| IssueMap.IssueMap.CloseDetails | components/map/issue-map.tsx:202 | nothing selected |
| IssueMap.IssueMap.LocationReceived | components/map/issue-map.tsx:78-83 | the received position is stored |
| IssueMap.IssueMap.SelectedBadge | components/map/issue-map.tsx:189-200 | shown iff an issue is selected, with its status colour and `StatusLabel` of its status |
| IssueCard.Render | components/community/issue-card.tsx:74-160 | the reporter's initials and name (or "U" / "Anonymous"), the status and priority badges and label, image iff URL, each vote button highlighted iff it is the own vote, the up/down/comment counts as given, a "+n" net that parses back to the vote count, the issue link |
| IssueCard.OnVoteClick | components/community/issue-card.tsx:131-141 | the click sends this issue's id and the button's kind |
| IssueCard.CardNetIsTally | components/community/issue-card.tsx:150 | the card's net reads back as upvotes − downvotes |
| IssueCard.ClickFlipsButton | components/community/issue-card.tsx:128-146 | a click and refetch flips that button's highlighting |
| IssueComments.IssueComments.constructor | components/issues/issue-comments.tsx:29-32 | no comments, empty input, loading, not submitting |
| IssueComments.IssueComments.SetNewComment | components/issues/issue-comments.tsx:94 | only the input text changes |
| IssueComments.IssueComments.FetchComments | components/issues/issue-comments.tsx:38-54 | the issue's comments oldest first; unchanged on failure |
| IssueComments.IssueComments.HandleSubmitComment | components/issues/issue-comments.tsx:56-74 | blank input does nothing; success posts trimmed text, clears the input, refetches (a failed refetch keeps the old list) and clears loading; failure keeps the input |
| IssueComments.IssueComments.SubmitDisabled | components/issues/issue-comments.tsx:97 | disabled iff submitting or the input is blank |
| IssueComments.IssueComments.Header | components/issues/issue-comments.tsx:85 | "Comments (n)" whose number reads back as the count |
| IssueComments.IssueComments.EmptyMessage | components/issues/issue-comments.tsx:105-108 | the prompt iff there are no comments |
| IssueComments.PostedContentIsTrimmed | components/issues/issue-comments.tsx:58-66 | posted text is non-empty without surrounding white space |
| IssueComments.PostedCommentListed | components/issues/issue-comments.tsx:69-71 | a posted comment appears in the refetched list |
| IssueComments.LatestCommentListedLast | components/issues/issue-comments.tsx:48 | the newest comment is listed last |
| IssueReportForm.WithField | components/forms/issue-report-form.tsx:37-39 | the named field takes the value; every other is kept |
| IssueReportForm.EditsCommute | components/forms/issue-report-form.tsx:37-39 | edits of different fields commute |
| IssueReportForm.LastEditWins | components/forms/issue-report-form.tsx:37-39 | a second edit of a field replaces the first |
| IssueReportForm.Extension | components/forms/issue-report-form.tsx:77 | the text after the last dot, or the whole name without a dot |
| IssueReportForm.FileName | components/forms/issue-report-form.tsx:78 | the clock's digits, which read back as the clock, a dot and the extension |
| IssueReportForm.FileNameParts | components/forms/issue-report-form.tsx:78 | the name splits at its first dot into the timestamp digits and the extension |
| IssueReportForm.FileNamesDiffer | components/forms/issue-report-form.tsx:78 | different timestamps give different file names |
| IssueReportForm.DotlessNameKept | components/forms/issue-report-form.tsx:77-78 | a name without a dot becomes "<timestamp>.<name>" |
| IssueReportForm.Coordinate | components/forms/issue-report-form.tsx:100-101 | null iff the text is empty |
| IssueReportForm.InsertRecord | components/forms/issue-report-form.tsx:93-103 | copies the form; null coordinates iff empty; the photo URL; reporter = user |
| IssueReportForm.UnchosenCategorySent | components/forms/issue-report-form.tsx:22-30 | an untouched form sends category "", priority "medium", no latitude |
| IssueReportForm.ErrorText | components/forms/issue-report-form.tsx:112-113 | an Error's message, otherwise "An error occurred" |
| IssueReportForm.RequiredFilled | components/forms/issue-report-form.tsx:150-210 | title, description and address are non-empty |
| IssueReportForm.CategoryNotRequired | components/forms/issue-report-form.tsx:150-210 | the untouched form is held back; the three required fields alone let it through, with category "" |
| IssueReportForm.IssueReportForm.constructor | components/forms/issue-report-form.tsx:22-34 | the initial form, no photo, no error, not loading |
| IssueReportForm.IssueReportForm.HandleInputChange | components/forms/issue-report-form.tsx:37-39 | only the named field changes |
| IssueReportForm.IssueReportForm.HandleImageChange | components/forms/issue-report-form.tsx:41-46 | a chosen file replaces the photo; no file keeps it |
| IssueReportForm.IssueReportForm.LocationReceived | components/forms/issue-report-form.tsx:51-56 | both coordinates are set together |
| IssueReportForm.IssueReportForm.HandleSubmit | components/forms/issue-report-form.tsx:65-117 | upload name; upload failure aborts with its message; otherwise the insert record; success or error; not loading |
| IssueReportForm.IssueReportForm.SubmitClicked | components/forms/issue-report-form.tsx:144-244 | nothing is sent while loading or with an empty required field |

## Left out

- Database and storage I/O, authentication and routing are left out. Each query's answer is a
  parameter, and a failed call is an absent answer or a `failed` flag, handled as the component
  handles it (vote writes, for instance, are not checked, so a failed one leaves the table as it was).
- Realtime subscription setup and teardown are left out. Only the per-event decisions are modelled.
- Concurrency is left out: `Promise.all` in the feed, races between simultaneous votes, and the
  un-awaited refetch after a comment. The model runs these steps in sequence.
- `Votes.HandleVote`: the invariant of at most one vote per (issue, user) is assumed on entry, as the
  components assume it of the store. Recovery from duplicate rows, where `.single()` yields null,
  is not modelled beyond `.single()` itself.
- `Votes.HandleVote`: a lookup that fails for another reason than zero or several rows (a network
  error) is not modelled. The source would then take the insert path and could add a second vote
  for the same (issue, user).
- `CommunityFeed.CommunityFeed.FetchIssues`: each issue's vote, own-vote and comment-count queries
  are taken to succeed. A failed one would show 0 or no vote through `|| 0` and `?.`, as
  `IssueDetails.IssueDetails.FetchVoteData` models for the issue page.
- Floating point is left out. `AdminAnalytics.ToStats` and `AdminAnalytics.ResolutionRate` compute
  exact reals, not IEEE doubles. Coordinates stay as text: `IssueReportForm.Coordinate` records
  whether a value is sent, not `parseFloat`'s number, and `toFixed(6)` is not modelled.
  `IssueMap.IssueMap.LocationReceived` takes reals.
- Geolocation is left out. Positions arrive as method arguments.
- Clocks are left out. `Date.now()` and `toISOString` are parameters. The viewer's time zone is one
  fixed UTC offset (`Domain.LocalDay`), applied to both the creation time and now, so a daylight
  saving change between the two is not modelled.
  `formatDistanceToNow` is not modelled.
- `toLowerCase` and `toUpperCase` are modelled over ASCII letters only, with no other Unicode case mapping.
- `AdminAnalytics.CountBy`: `Object.entries` lists integer-like keys in ascending numeric order
  before the other keys, and the model uses insertion order for every key. A key that names an
  inherited object property, such as "constructor", is not modelled: the `acc[k] || 0` lookup
  would misread it.
- `Notifications.StatusMessage` and `Notifications.StatusIcon`: a status naming an inherited object
  property, such as "constructor", would find a value in `statusMessages[issue.status]`. The model
  maps only the three listed statuses.
- `CommunityFilters.CommunityFilters.HandleFilterChange` takes one of the four keys. An arbitrary
  string key would add a fifth entry.
- The "most voted" and "priority" sort options are left out. The community filters offer them, but
  nothing applies them.
- `Store.CommentsOf`: comments with equal creation times may come back in any order; the model
  fixes none.
- `IssueReportForm.IssueReportForm.HandleSubmit`: the redirect two seconds after success and the
  cancel button's navigation are not modelled.
- Pure markup is not modelled, apart from the labels and messages listed in the table.
