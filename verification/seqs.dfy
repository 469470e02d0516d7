/**
 * Order-preserving subsequences and the `Array.prototype.filter` / `filter(...).length`
 * idiom the components use on fetched rows.
 */
module Seqs {

  /** `r` is an order-preserving subsequence of `s`: `s` with some elements dropped. */
  predicate Sub<T(==)>(r: seq<T>, s: seq<T>)
    decreases |s|
  {
    if s == [] then r == []
    else (r != [] && r[0] == s[0] && Sub(r[1..], s[1..])) || Sub(r, s[1..])
  }

  lemma {:induction false} SubRefl<T>(s: seq<T>)
    ensures Sub(s, s)
  {
    if s != [] {
      SubRefl(s[1..]);
    }
  }

  lemma {:induction false} SubMembers<T>(r: seq<T>, s: seq<T>)
    requires Sub(r, s)
    ensures |r| <= |s|
    ensures forall x :: x in r ==> x in s
    decreases |s|
  {
    if s != [] {
      if r != [] && r[0] == s[0] && Sub(r[1..], s[1..]) {
        SubMembers(r[1..], s[1..]);
        assert r == [r[0]] + r[1..];
      } else {
        SubMembers(r, s[1..]);
      }
    }
  }

  lemma {:induction false} SubTrans<T>(a: seq<T>, b: seq<T>, c: seq<T>)
    requires Sub(a, b) && Sub(b, c)
    ensures Sub(a, c)
    decreases |c|
  {
    if c == [] {
      assert b == [];
    } else if b != [] && b[0] == c[0] && Sub(b[1..], c[1..]) {
      if a != [] && a[0] == b[0] && Sub(a[1..], b[1..]) {
        SubTrans(a[1..], b[1..], c[1..]);
      } else {
        SubTrans(a, b[1..], c[1..]);
      }
    } else {
      SubTrans(a, b, c[1..]);
    }
  }

  /** The number of elements of `s` satisfying `p`. */
  function Count<T>(s: seq<T>, p: T -> bool): (n: nat)
    ensures n <= |s|
  {
    if s == [] then 0 else (if p(s[0]) then 1 else 0) + Count(s[1..], p)
  }

  /** Nothing is counted exactly when no element satisfies `p`. */
  lemma {:induction false} CountZero<T>(s: seq<T>, p: T -> bool)
    ensures Count(s, p) == 0 <==> forall x :: x in s ==> !p(x)
  {
    if s != [] {
      CountZero(s[1..], p);
      assert forall x :: x in s ==> x == s[0] || x in s[1..];
    }
  }

  lemma {:induction false} CountConcat<T>(a: seq<T>, b: seq<T>, p: T -> bool)
    ensures Count(a + b, p) == Count(a, p) + Count(b, p)
  {
    if a != [] {
      assert (a + b)[1..] == a[1..] + b;
      CountConcat(a[1..], b, p);
    } else {
      assert a + b == b;
    }
  }

  /** Keeps the elements satisfying `p`, in their original order. */
  function Filter<T(==)>(s: seq<T>, p: T -> bool): (r: seq<T>)
    ensures forall x :: x in r ==> x in s && p(x)
    ensures forall i :: 0 <= i < |s| && p(s[i]) ==> s[i] in r
    ensures |r| == Count(s, p)
  {
    if s == [] then []
    else if p(s[0]) then [s[0]] + Filter(s[1..], p)
    else Filter(s[1..], p)
  }

  /** Filters by two predicates that agree everywhere keep the same elements. */
  lemma {:induction false} FilterExt<T>(s: seq<T>, p: T -> bool, q: T -> bool)
    requires forall x :: p(x) == q(x)
    ensures Filter(s, p) == Filter(s, q)
  {
    if s != [] {
      FilterExt(s[1..], p, q);
    }
  }

  /** What `filter` keeps is a subsequence: nothing is reordered or duplicated. */
  lemma {:induction false} FilterIsSub<T>(s: seq<T>, p: T -> bool)
    ensures Sub(Filter(s, p), s)
  {
    if s != [] {
      FilterIsSub(s[1..], p);
    }
  }

  lemma {:induction false} FilterAll<T>(s: seq<T>, p: T -> bool)
    requires forall x :: x in s ==> p(x)
    ensures Filter(s, p) == s
  {
    if s != [] {
      FilterAll(s[1..], p);
    }
  }

  /** Keeping elements by `p` and then by `q` keeps each element that satisfies both. */
  lemma {:induction false} FilterFilter<T>(s: seq<T>, p: T -> bool, q: T -> bool, pq: T -> bool)
    requires forall x :: pq(x) == (p(x) && q(x))
    ensures Filter(Filter(s, p), q) == Filter(s, pq)
  {
    if s != [] {
      FilterFilter(s[1..], p, q, pq);
    }
  }

  lemma {:induction false} FilterConcat<T>(a: seq<T>, b: seq<T>, p: T -> bool)
    ensures Filter(a + b, p) == Filter(a, p) + Filter(b, p)
  {
    if a == [] {
      assert a + b == b;
    } else {
      assert (a + b)[1..] == a[1..] + b;
      FilterConcat(a[1..], b, p);
    }
  }

  /** Filtering around one element: what is kept on either side, plus that element if it is kept. */
  lemma {:induction false} FilterAround<T>(pre: seq<T>, x: T, post: seq<T>, p: T -> bool)
    ensures Filter(pre + [x] + post, p) == Filter(pre, p) + (if p(x) then [x] else []) + Filter(post, p)
  {
    FilterConcat(pre + [x], post, p);
    FilterConcat(pre, [x], p);
    FilterOne(x, p);
  }

  lemma FilterOne<T>(x: T, p: T -> bool)
    ensures Filter([x], p) == if p(x) then [x] else []
  {
    assert [x][1..] == [];
  }

  /** Counting around one element. */
  lemma {:induction false} CountAround<T>(pre: seq<T>, x: T, post: seq<T>, p: T -> bool)
    ensures Count(pre + [x] + post, p) == Count(pre, p) + (if p(x) then 1 else 0) + Count(post, p)
  {
    CountConcat(pre + [x], post, p);
    CountConcat(pre, [x], p);
    assert [x][1..] == [];
  }

  /** `s` is in non-decreasing order of `key`. */
  predicate SortedBy<T>(s: seq<T>, key: T -> int)
  {
    forall i, j :: 0 <= i < j < |s| ==> key(s[i]) <= key(s[j])
  }

  /** Puts `x` into the sorted `s` after every element whose key is not larger. */
  function InsertBy<T(==)>(x: T, s: seq<T>, key: T -> int): (r: seq<T>)
    requires SortedBy(s, key)
    ensures SortedBy(r, key)
    ensures multiset(r) == multiset(s) + multiset{x}
    ensures |r| == |s| + 1
    ensures key(r[0]) == key(x) || (s != [] && key(r[0]) == key(s[0]))
  {
    if s == [] then [x]
    else if key(x) < key(s[0]) then [x] + s
    else
      var rest := InsertBy(x, s[1..], key);
      assert s == [s[0]] + s[1..];
      [s[0]] + rest
  }

  /** `.order(column, { ascending: true })`: a sort by `key` (the order of ties is not specified). */
  function SortBy<T(==)>(s: seq<T>, key: T -> int): (r: seq<T>)
    ensures SortedBy(r, key)
    ensures multiset(r) == multiset(s)
    ensures |r| == |s|
  {
    if s == [] then []
    else
      assert s == s[..|s| - 1] + [s[|s| - 1]];
      InsertBy(s[|s| - 1], SortBy(s[..|s| - 1], key), key)
  }

  /** Sorting what is already in order changes nothing. */
  lemma {:induction false} SortSorted<T>(s: seq<T>, key: T -> int)
    requires SortedBy(s, key)
    ensures SortBy(s, key) == s
  {
    if s != [] {
      var init := s[..|s| - 1];
      var x := s[|s| - 1];
      assert s == init + [x];
      assert SortedBy(init, key) by {
        forall i, j | 0 <= i < j < |init|
          ensures key(init[i]) <= key(init[j])
        {
          assert init[i] == s[i] && init[j] == s[j];
        }
      }
      forall i | 0 <= i < |init|
        ensures key(init[i]) <= key(x)
      {
        assert init[i] == s[i];
      }
      SortSorted(init, key);
      AppendLargest(init, x, key);
      assert SortBy(s, key) == InsertBy(x, SortBy(init, key), key);
    }
  }

  lemma {:induction false} AppendLargest<T>(s: seq<T>, x: T, key: T -> int)
    requires SortedBy(s, key)
    requires forall i :: 0 <= i < |s| ==> key(s[i]) <= key(x)
    ensures InsertBy(x, s, key) == s + [x]
  {
    if s != [] {
      assert SortedBy(s[1..], key);
      AppendLargest(s[1..], x, key);
      assert s == [s[0]] + s[1..];
    }
  }
}
