/**
 * The issue search the community feed and the admin list share: the lower-cased term is a
 * substring of the lower-cased title, description or location address.
 */
module IssueSearch {
  import opened Domain
  import opened Text

  predicate MatchesSearch(issue: Issue, term: string)
  {
    MatchesIgnoringCase(issue.title, term)
    || MatchesIgnoringCase(issue.description, term)
    || MatchesIgnoringCase(issue.locationAddress, term)
  }

  /** The empty term matches every issue (`"".includes` is always true). */
  lemma EmptyTermMatches(issue: Issue)
    ensures MatchesSearch(issue, "")
  {
    MatchesEmpty(issue.title);
  }

  /** The case in which the term is typed does not matter. */
  lemma SearchIgnoresTermCase(issue: Issue, term: string)
    ensures MatchesSearch(issue, Upper(term)) == MatchesSearch(issue, term)
  {
    LowerOfUpper(term);
  }
}
