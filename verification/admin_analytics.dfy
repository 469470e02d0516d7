/**
 * The admin analytics: a dictionary of issue counts per category and per priority, built by
 * one pass each, listed in the order the keys first appear, each with its share of all issues;
 * and the resolution rate, with a zero guard for an empty table.
 */
module AdminAnalytics {
  import opened Domain
  import opened Seqs
  import opened IssueStats

  /** `{ category, count, percentage }` (or the same with `priority`). */
  datatype KeyStat = KeyStat(key: string, count: nat, percentage: real)

  /** The two dictionaries: issues counted by category and by priority. */
  datatype Dimension = ByCategory | ByPriority

  function KeyOf(dim: Dimension, i: Issue): string
  {
    match dim
    case ByCategory => i.category
    case ByPriority => i.priority
  }

  function KeyIs(dim: Dimension, k: string): Issue -> bool
  {
    (i: Issue) => KeyOf(dim, i) == k
  }

  predicate Distinct(keys: seq<string>)
  {
    forall a, b :: 0 <= a < b < |keys| ==> keys[a] != keys[b]
  }

  /** Some issue before position `j` has key `k`. */
  predicate OccursBefore(issues: seq<Issue>, dim: Dimension, k: string, j: int)
  {
    exists i :: 0 <= i < j && i < |issues| && KeyOf(dim, issues[i]) == k
  }

  /** Keys listed in the order of their first occurrence: an earlier-listed key occurs before any later-listed one does. */
  predicate FirstOccurrenceOrder(keys: seq<string>, issues: seq<Issue>, dim: Dimension)
  {
    forall a, b, j :: 0 <= a < b < |keys| && 0 <= j < |issues| && KeyOf(dim, issues[j]) == keys[b] ==>
      OccursBefore(issues, dim, keys[a], j)
  }

  function SumCounts(keys: seq<string>, counts: map<string, nat>): nat
    requires forall k :: k in keys ==> k in counts
  {
    if keys == [] then 0 else counts[keys[0]] + SumCounts(keys[1..], counts)
  }

  lemma {:induction false} SumBump(keys: seq<string>, counts: map<string, nat>, x: string)
    requires forall k :: k in keys ==> k in counts
    requires Distinct(keys) && x in keys
    ensures SumCounts(keys, counts[x := counts[x] + 1]) == SumCounts(keys, counts) + 1
  {
    if keys[0] == x {
      assert x !in keys[1..];
      SumUnrelated(keys[1..], counts, x, counts[x] + 1);
    } else {
      SumBump(keys[1..], counts, x);
    }
  }

  lemma {:induction false} SumUnrelated(keys: seq<string>, counts: map<string, nat>, x: string, v: nat)
    requires forall k :: k in keys ==> k in counts
    requires x !in keys
    ensures SumCounts(keys, counts[x := v]) == SumCounts(keys, counts)
  {
    if keys != [] {
      SumUnrelated(keys[1..], counts, x, v);
    }
  }

  lemma {:induction false} SumAppend(keys: seq<string>, counts: map<string, nat>, x: string)
    requires forall k :: k in keys ==> k in counts
    requires x in counts
    ensures SumCounts(keys + [x], counts) == SumCounts(keys, counts) + counts[x]
  {
    if keys == [] {
      assert keys + [x] == [x];
    } else {
      assert (keys + [x])[1..] == keys[1..] + [x];
      SumAppend(keys[1..], counts, x);
    }
  }

  /** After the first `n` issues: each dictionary entry is the count of its key among them. */
  ghost predicate CountsAgree(issues: seq<Issue>, dim: Dimension, n: nat, counts: map<string, nat>)
    requires n <= |issues|
  {
    && (forall k :: k in counts ==> counts[k] == Count(issues[..n], KeyIs(dim, k)) && counts[k] > 0)
    && (forall i :: 0 <= i < n ==> KeyOf(dim, issues[i]) in counts)
  }

  /** After the first `n` issues: the key list is the dictionary's keys, each once, in first-occurrence order. */
  ghost predicate KeysInOrder(issues: seq<Issue>, dim: Dimension, n: nat, keys: seq<string>, counts: map<string, nat>)
    requires n <= |issues|
  {
    && Distinct(keys)
    && (forall k :: k in counts <==> k in keys)
    && (forall k :: k in keys ==> OccursBefore(issues, dim, k, n))
    && (forall a, b, j :: 0 <= a < b < |keys| && 0 <= j < n && KeyOf(dim, issues[j]) == keys[b] ==>
          OccursBefore(issues, dim, keys[a], j))
  }

  lemma CountStep(issues: seq<Issue>, dim: Dimension, n: nat, k: string)
    requires n < |issues|
    ensures Count(issues[..n + 1], KeyIs(dim, k)) ==
      Count(issues[..n], KeyIs(dim, k)) + (if KeyOf(dim, issues[n]) == k then 1 else 0)
  {
    assert issues[..n + 1] == issues[..n] + [issues[n]];
    CountConcat(issues[..n], [issues[n]], KeyIs(dim, k));
  }

  /** Counting the next issue: its key's entry goes up by one (or starts at one), the others stay. */
  lemma CountsStep(issues: seq<Issue>, dim: Dimension, n: nat, counts: map<string, nat>)
    requires n < |issues| && CountsAgree(issues, dim, n, counts)
    ensures var x := KeyOf(dim, issues[n]);
      CountsAgree(issues, dim, n + 1, counts[x := if x in counts then counts[x] + 1 else 1])
  {
    var x := KeyOf(dim, issues[n]);
    var counts' := counts[x := if x in counts then counts[x] + 1 else 1];
    if x !in counts {
      assert Count(issues[..n], KeyIs(dim, x)) == 0 by {
        forall y | y in issues[..n]
          ensures !KeyIs(dim, x)(y)
        {
          var i :| 0 <= i < n && issues[..n][i] == y;
        }
        CountZero(issues[..n], KeyIs(dim, x));
      }
    }
    forall k | k in counts'
      ensures counts'[k] == Count(issues[..n + 1], KeyIs(dim, k)) && counts'[k] > 0
    {
      CountStep(issues, dim, n, k);
    }
  }

  /** The keys already listed all occurred before `n`, so before `n + 1`. */
  lemma OccurredStays(issues: seq<Issue>, dim: Dimension, n: nat, keys: seq<string>)
    requires n < |issues|
    requires forall k :: k in keys ==> OccursBefore(issues, dim, k, n)
    ensures forall k :: k in keys ==> OccursBefore(issues, dim, k, n + 1)
  {
    forall k | k in keys
      ensures OccursBefore(issues, dim, k, n + 1)
    {
      var i :| 0 <= i < n && i < |issues| && KeyOf(dim, issues[i]) == k;
    }
  }

  lemma KeysStepExisting(issues: seq<Issue>, dim: Dimension, n: nat, keys: seq<string>, counts: map<string, nat>)
    requires n < |issues| && KeysInOrder(issues, dim, n, keys, counts)
    requires KeyOf(dim, issues[n]) in counts
    ensures KeysInOrder(issues, dim, n + 1, keys, counts[KeyOf(dim, issues[n]) := counts[KeyOf(dim, issues[n])] + 1])
  {
    OccurredStays(issues, dim, n, keys);
  }

  lemma KeysStepNew(issues: seq<Issue>, dim: Dimension, n: nat, keys: seq<string>, counts: map<string, nat>)
    requires n < |issues| && KeysInOrder(issues, dim, n, keys, counts)
    requires forall i :: 0 <= i < n ==> KeyOf(dim, issues[i]) in counts
    requires KeyOf(dim, issues[n]) !in counts
    ensures KeysInOrder(issues, dim, n + 1, keys + [KeyOf(dim, issues[n])], counts[KeyOf(dim, issues[n]) := 1])
  {
    var x := KeyOf(dim, issues[n]);
    var keys' := keys + [x];
    OccurredStays(issues, dim, n, keys);
    assert OccursBefore(issues, dim, x, n + 1);
    forall a, b, j | 0 <= a < b < |keys'| && 0 <= j < n + 1 && KeyOf(dim, issues[j]) == keys'[b]
      ensures OccursBefore(issues, dim, keys'[a], j)
    {
      if b == |keys| {
        assert j == n;
        assert keys'[a] == keys[a] && keys[a] in keys;
      }
    }
  }

  lemma SumStep(keys: seq<string>, counts: map<string, nat>, x: string)
    requires Distinct(keys) && forall k :: k in counts <==> k in keys
    ensures x in counts ==> SumCounts(keys, counts[x := counts[x] + 1]) == SumCounts(keys, counts) + 1
    ensures x !in counts ==> SumCounts(keys + [x], counts[x := 1]) == SumCounts(keys, counts) + 1
  {
    if x in counts {
      SumBump(keys, counts, x);
    } else {
      SumUnrelated(keys, counts, x, 1);
      SumAppend(keys, counts[x := 1], x);
    }
  }

  /**
   * The reference specification of a counting dictionary: its keys are exactly the keys that
   * occur, listed once each in first-occurrence order, each with its number of issues, and the
   * counts add up to the number of issues.
   */
  ghost predicate IsTally(issues: seq<Issue>, dim: Dimension, keys: seq<string>, counts: map<string, nat>)
  {
    && Distinct(keys)
    && (forall k :: k in counts <==> k in keys)
    && (forall k :: k in counts ==> counts[k] == Count(issues, KeyIs(dim, k)) && counts[k] > 0)
    && (forall i :: 0 <= i < |issues| ==> KeyOf(dim, issues[i]) in counts)
    && FirstOccurrenceOrder(keys, issues, dim)
    && SumCounts(keys, counts) == |issues|
  }

  /** What the dictionary and its key list hold after counting the first `n` issues. */
  ghost predicate Tallied(issues: seq<Issue>, dim: Dimension, n: nat, keys: seq<string>, counts: map<string, nat>)
    requires n <= |issues|
  {
    CountsAgree(issues, dim, n, counts) && KeysInOrder(issues, dim, n, keys, counts) && SumCounts(keys, counts) == n
  }

  lemma TalliedEmpty(issues: seq<Issue>, dim: Dimension)
    ensures Tallied(issues, dim, 0, [], map[])
  {
  }

  lemma TallyStep(issues: seq<Issue>, dim: Dimension, n: nat, keys: seq<string>, counts: map<string, nat>)
    requires n < |issues| && Tallied(issues, dim, n, keys, counts)
    ensures var x := KeyOf(dim, issues[n]);
      Tallied(issues, dim, n + 1, if x in counts then keys else keys + [x],
        counts[x := if x in counts then counts[x] + 1 else 1])
  {
    var x := KeyOf(dim, issues[n]);
    CountsStep(issues, dim, n, counts);
    SumStep(keys, counts, x);
    if x in counts {
      KeysStepExisting(issues, dim, n, keys, counts);
    } else {
      KeysStepNew(issues, dim, n, keys, counts);
    }
  }

  lemma TalliedAll(issues: seq<Issue>, dim: Dimension, keys: seq<string>, counts: map<string, nat>)
    requires Tallied(issues, dim, |issues|, keys, counts)
    ensures IsTally(issues, dim, keys, counts)
  {
    assert issues[..|issues|] == issues;
  }

  /**
   * The `reduce` into a dictionary: `acc[k] = (acc[k] || 0) + 1`, with the key order
   * `Object.entries` reports (first insertion first).
   */
  method CountBy(issues: seq<Issue>, dim: Dimension) returns (keys: seq<string>, counts: map<string, nat>)
    ensures IsTally(issues, dim, keys, counts)
  {
    keys := [];
    counts := map[];
    var n := 0;
    TalliedEmpty(issues, dim);
    while n < |issues|
      invariant 0 <= n <= |issues|
      invariant Tallied(issues, dim, n, keys, counts)
    {
      var x := KeyOf(dim, issues[n]);
      TallyStep(issues, dim, n, keys, counts);
      keys, counts := if x in counts then keys else keys + [x], counts[x := if x in counts then counts[x] + 1 else 1];
      n := n + 1;
    }
    TalliedAll(issues, dim, keys, counts);
  }

  /** `(count / totalIssues) * 100`, over exact rationals. */
  function Percent(count: nat, total: nat): real
    requires total > 0
  {
    (count as real / total as real) * 100.0
  }

  /** `Object.entries(counts).map(...)`: one entry per key, in key order. */
  function ToStats(keys: seq<string>, counts: map<string, nat>, total: nat): (r: seq<KeyStat>)
    requires forall k :: k in keys ==> k in counts
    requires keys != [] ==> total > 0
    ensures |r| == |keys|
    ensures forall i :: 0 <= i < |r| ==> r[i].key == keys[i] && r[i].count == counts[keys[i]]
    ensures forall i :: 0 <= i < |r| ==> r[i].percentage * total as real == counts[keys[i]] as real * 100.0
  {
    seq(|keys|, i requires 0 <= i < |keys| => KeyStat(keys[i], counts[keys[i]], Percent(counts[keys[i]], total)))
  }

  /** The entry's percentage is its count's share of `total` issues. */
  predicate IsShare(s: KeyStat, total: nat)
  {
    s.percentage * total as real == s.count as real * 100.0
  }

  function SumPercent(stats: seq<KeyStat>): real
  {
    if stats == [] then 0.0 else stats[0].percentage + SumPercent(stats[1..])
  }

  lemma Distribute(a: real, b: real, t: real)
    ensures (a + b) * t == a * t + b * t
  {
  }

  /** Each share is the key's count over the total, so the shares add up to the counts' sum over the total. */
  lemma {:induction false} SumPercentIsSumCounts(keys: seq<string>, counts: map<string, nat>, total: nat)
    requires forall k :: k in keys ==> k in counts
    requires total > 0
    ensures SumPercent(ToStats(keys, counts, total)) * total as real == SumCounts(keys, counts) as real * 100.0
  {
    if keys != [] {
      var r := ToStats(keys, counts, total);
      var rest := ToStats(keys[1..], counts, total);
      SumPercentIsSumCounts(keys[1..], counts, total);
      assert r[1..] == rest;
      var t := total as real;
      var head := r[0].percentage;
      var tail := SumPercent(rest);
      assert SumPercent(r) == head + tail;
      assert head * t == counts[keys[0]] as real * 100.0;
      assert tail * t == SumCounts(keys[1..], counts) as real * 100.0;
      Distribute(head, tail, t);
    }
  }

  lemma RatioBounds(a: real, t: real)
    requires 0.0 < t && 0.0 <= a <= t
    ensures 0.0 <= a / t <= 1.0
    ensures a / t == 0.0 <==> a == 0.0
    ensures a / t == 1.0 <==> a == t
  {
    var q := a / t;
    assert q * t == a;
  }

  /** `totalIssues > 0 ? (resolvedCount / totalIssues) * 100 : 0`. */
  function ResolutionRate(resolved: nat, total: nat): (r: real)
    requires resolved <= total
    ensures 0.0 <= r <= 100.0
    ensures r == 0.0 <==> resolved == 0
    ensures r == 100.0 <==> total > 0 && resolved == total
  {
    if total > 0 then
      RatioBounds(resolved as real, total as real);
      (resolved as real / total as real) * 100.0
    else 0.0
  }

  /**
   * What one list of the page states about the issues: one entry per key that occurs, each
   * once and in first-occurrence order, with its count and its share of the issues in
   * percent, the shares adding up to 100 whenever there is an issue.
   */
  ghost predicate Distribution(issues: seq<Issue>, dim: Dimension, stats: seq<KeyStat>)
  {
    && (forall a, b :: 0 <= a < b < |stats| ==> stats[a].key != stats[b].key)
    && (forall s :: s in stats ==> s.count == Count(issues, KeyIs(dim, s.key)) && s.count > 0)
    && (forall s :: s in stats ==> IsShare(s, |issues|))
    && (forall i :: 0 <= i < |issues| ==> exists s :: s in stats && s.key == KeyOf(dim, issues[i]))
    && (forall a, b, j :: 0 <= a < b < |stats| && 0 <= j < |issues| && KeyOf(dim, issues[j]) == stats[b].key ==>
          OccursBefore(issues, dim, stats[a].key, j))
    && (issues != [] ==> SumPercent(stats) == 100.0)
  }

  lemma ToStatsCounts(issues: seq<Issue>, dim: Dimension, keys: seq<string>, counts: map<string, nat>)
    requires IsTally(issues, dim, keys, counts)
    ensures var stats := ToStats(keys, counts, |issues|);
      forall s :: s in stats ==> s.count == Count(issues, KeyIs(dim, s.key)) && s.count > 0
  {
    var stats := ToStats(keys, counts, |issues|);
    forall s | s in stats
      ensures s.count == Count(issues, KeyIs(dim, s.key)) && s.count > 0
    {
      var a :| 0 <= a < |stats| && stats[a] == s;
      assert keys[a] in counts;
    }
  }

  lemma ToStatsCovers(issues: seq<Issue>, dim: Dimension, keys: seq<string>, counts: map<string, nat>)
    requires IsTally(issues, dim, keys, counts)
    ensures var stats := ToStats(keys, counts, |issues|);
      forall i :: 0 <= i < |issues| ==> exists s :: s in stats && s.key == KeyOf(dim, issues[i])
  {
    var stats := ToStats(keys, counts, |issues|);
    forall i | 0 <= i < |issues|
      ensures exists s :: s in stats && s.key == KeyOf(dim, issues[i])
    {
      assert KeyOf(dim, issues[i]) in keys;
      var a :| 0 <= a < |keys| && keys[a] == KeyOf(dim, issues[i]);
      assert stats[a] in stats;
    }
  }

  lemma ToStatsOrder(issues: seq<Issue>, dim: Dimension, keys: seq<string>, counts: map<string, nat>)
    requires IsTally(issues, dim, keys, counts)
    ensures var stats := ToStats(keys, counts, |issues|);
      && (forall a, b :: 0 <= a < b < |stats| ==> stats[a].key != stats[b].key)
      && (forall a, b, j :: 0 <= a < b < |stats| && 0 <= j < |issues| && KeyOf(dim, issues[j]) == stats[b].key ==>
            OccursBefore(issues, dim, stats[a].key, j))
  {
  }

  /** Every issue has one key, so the shares of all keys make up the whole. */
  lemma SharesMakeWhole(keys: seq<string>, counts: map<string, nat>, total: nat)
    requires forall k :: k in keys ==> k in counts
    requires total > 0 && SumCounts(keys, counts) == total
    ensures SumPercent(ToStats(keys, counts, total)) == 100.0
  {
    var t := total as real;
    var x := SumPercent(ToStats(keys, counts, total));
    SumPercentIsSumCounts(keys, counts, total);
    WholeShare(x, SumCounts(keys, counts) as real, t);
  }

  /** A sum of shares of `t` that amounts to `t` itself is 100 percent. */
  lemma WholeShare(x: real, c: real, t: real)
    requires t > 0.0 && c == t && x * t == c * 100.0
    ensures x == 100.0
  {
    assert (x - 100.0) * t == 0.0;
  }

  lemma ToStatsShares(keys: seq<string>, counts: map<string, nat>, total: nat)
    requires forall k :: k in keys ==> k in counts
    requires keys != [] ==> total > 0
    ensures var stats := ToStats(keys, counts, total);
      forall s :: s in stats ==> IsShare(s, total)
  {
    var stats := ToStats(keys, counts, total);
    forall s | s in stats
      ensures IsShare(s, total)
    {
      var i :| 0 <= i < |stats| && stats[i] == s;
    }
  }

  /** The entries listed for a counting dictionary describe the issues as `Distribution` says. */
  lemma ToStatsDistribution(issues: seq<Issue>, dim: Dimension, keys: seq<string>, counts: map<string, nat>)
    requires IsTally(issues, dim, keys, counts)
    ensures Distribution(issues, dim, ToStats(keys, counts, |issues|))
  {
    ToStatsCounts(issues, dim, keys, counts);
    ToStatsShares(keys, counts, |issues|);
    ToStatsCovers(issues, dim, keys, counts);
    ToStatsOrder(issues, dim, keys, counts);
    if issues != [] {
      SharesMakeWhole(keys, counts, |issues|);
    }
  }

  /** The count dictionary of one dimension, as the list of `{ key, count, percentage }` entries. */
  method KeyStats(issues: seq<Issue>, dim: Dimension) returns (stats: seq<KeyStat>)
    ensures Distribution(issues, dim, stats)
  {
    var keys, counts := CountBy(issues, dim);
    ToStatsDistribution(issues, dim, keys, counts);
    stats := ToStats(keys, counts, |issues|);
  }

  class AdminAnalytics {
    var categoryStats: seq<KeyStat>
    var priorityStats: seq<KeyStat>
    var resolutionRate: real
    var loading: bool

    constructor ()
      ensures categoryStats == [] && priorityStats == [] && resolutionRate == 0.0 && loading
    {
      categoryStats := [];
      priorityStats := [];
      resolutionRate := 0.0;
      loading := true;
    }

    /** `fetchAnalytics`: `data` is the category/priority/status query, null when it failed. */
    method FetchAnalytics(data: Option<seq<Issue>>)
      modifies this
      ensures data.None? ==> categoryStats == old(categoryStats) && priorityStats == old(priorityStats)
      ensures data.None? ==> resolutionRate == old(resolutionRate)
      ensures data.Some? ==> Distribution(data.value, ByCategory, categoryStats)
      ensures data.Some? ==> Distribution(data.value, ByPriority, priorityStats)
      ensures data.Some? ==> resolutionRate == ResolutionRate(Count(data.value, HasStatus("resolved")), |data.value|)
      ensures !loading
    {
      if data.Some? {
        var issues := data.value;
        categoryStats := KeyStats(issues, ByCategory);
        priorityStats := KeyStats(issues, ByPriority);
        var resolvedCount := |Filter(issues, HasStatus("resolved"))|;
        resolutionRate := ResolutionRate(resolvedCount, |issues|);
      }
      loading := false;
    }
  }
}
