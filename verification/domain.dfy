/**
 * The rows of the backend tables the components read and write, as values.
 * Status, priority, category and role are kept as strings: the components
 * compare them against literals and have a default branch for anything else.
 */
module Domain {

  datatype Option<+T> = None | Some(value: T)

  /** Milliseconds since the epoch; the backend's `created_at`/`resolved_at`. */
  type Timestamp = nat

  const MsPerDay: nat := 86400000

  /** The local calendar day of an instant (what `toDateString` distinguishes), for a fixed UTC offset. */
  function LocalDay(t: Timestamp, utcOffsetMs: int): int
  {
    (t + utcOffsetMs) / MsPerDay
  }

  /** A row of `issues`, joined with the reporter's `full_name` (`profiles:reporter_id`). */
  datatype Issue = Issue(
    id: string,
    title: string,
    description: string,
    category: string,
    status: string,
    priority: string,
    locationAddress: string,
    latitude: Option<real>,
    longitude: Option<real>,
    imageUrl: Option<string>,
    reporterId: string,
    reporterName: Option<string>,
    createdAt: Timestamp,
    resolvedAt: Option<Timestamp>)

  /** A row of `profiles`. */
  datatype Profile = Profile(
    id: string,
    email: string,
    fullName: string,
    phone: Option<string>,
    address: Option<string>,
    role: string,
    createdAt: Timestamp)

  /** A row of `comments`, joined with the author's `full_name` (`profiles:user_id`). */
  datatype Comment = Comment(
    id: nat,
    issueId: string,
    userId: string,
    content: string,
    authorName: Option<string>,
    createdAt: Timestamp)

  datatype VoteKind = Upvote | Downvote

  /** A row of `votes`. */
  datatype Vote = Vote(id: nat, issueId: string, userId: string, kind: VoteKind)

  /** The data-model invariant: `resolved_at` is set exactly when the status is "resolved". */
  predicate ResolvedConsistent(i: Issue)
  {
    i.resolvedAt.Some? <==> i.status == "resolved"
  }
}
