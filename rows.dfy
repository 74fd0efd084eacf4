/** `WHERE` and `ORDER BY` as functions on sequences of rows. A table has
    no order of its own, so a filter is specified by the multiset of rows it
    keeps, and `ORDER BY` by a permutation of the rows sorted by a total
    preorder (rows the order does not tell apart may come out in any order;
    the model happens to use insertion sort). */
module Rows {

  /** `WHERE p`: the rows satisfying p, each as often as in s. */
  function Filter<T(!new)>(s: seq<T>, p: T -> bool): (r: seq<T>)
    ensures forall x :: multiset(r)[x] == if p(x) then multiset(s)[x] else 0
    ensures forall x :: x in r <==> x in s && p(x)
    ensures |r| <= |s|
  {
    if s == [] then []
    else
      assert s == [s[0]] + s[1..];
      (if p(s[0]) then [s[0]] else []) + Filter(s[1..], p)
  }

  /** A filter keeps every row exactly when every row satisfies it. */
  lemma {:induction false} FilterKeepsAllIffAllPass<T(!new)>(s: seq<T>, p: T -> bool)
    ensures |Filter(s, p)| == |s| <==> forall x :: x in s ==> p(x)
  {
    if s != [] {
      FilterKeepsAllIffAllPass(s[1..], p);
      assert forall x :: x in s <==> x == s[0] || x in s[1..];
    }
  }

  /** rel holds between every element and every later one. */
  ghost predicate Pairwise<T>(s: seq<T>, rel: (T, T) -> bool)
  {
    forall i, j :: 0 <= i < j < |s| ==> rel(s[i], s[j])
  }

  /** Filtering keeps the pairwise relation: the rows kept are a
      subsequence of the rows given. */
  lemma {:induction false} FilterKeepsPairwise<T(!new)>(s: seq<T>, p: T -> bool, rel: (T, T) -> bool)
    requires Pairwise(s, rel)
    ensures Pairwise(Filter(s, p), rel)
  {
    if s != [] {
      var tail := s[1..];
      assert Pairwise(tail, rel) by {
        forall i, j | 0 <= i < j < |tail| ensures rel(tail[i], tail[j]) {
          assert tail[i] == s[i + 1] && tail[j] == s[j + 1];
        }
      }
      FilterKeepsPairwise(tail, p, rel);
      var rest := Filter(tail, p);
      if p(s[0]) {
        assert forall y :: y in tail ==> rel(s[0], y) by {
          forall y | y in tail ensures rel(s[0], y) {
            var k :| 0 <= k < |tail| && tail[k] == y;
            assert s[k + 1] == y;
          }
        }
        var r := [s[0]] + rest;
        forall i, j | 0 <= i < j < |r| ensures rel(r[i], r[j]) {
          if i == 0 {
            assert r[j] == rest[j - 1] && rest[j - 1] in rest;
          } else {
            assert r[i] == rest[i - 1] && r[j] == rest[j - 1];
          }
        }
      }
    }
  }

  /** Appending an element related to every earlier one keeps the relation. */
  lemma PairwiseAppend<T>(s: seq<T>, x: T, rel: (T, T) -> bool)
    requires Pairwise(s, rel)
    requires forall y :: y in s ==> rel(y, x)
    ensures Pairwise(s + [x], rel)
  {
    var t := s + [x];
    forall i, j | 0 <= i < j < |t| ensures rel(t[i], t[j]) {
      assert t[i] == s[i];
      if j < |s| {
        assert t[j] == s[j];
      } else {
        assert s[i] in s;
      }
    }
  }

  ghost predicate TotalPreorder<T(!new)>(le: (T, T) -> bool)
  {
    && (forall a, b :: le(a, b) || le(b, a))
    && (forall a, b, c :: le(a, b) && le(b, c) ==> le(a, c))
  }

  ghost predicate Sorted<T>(s: seq<T>, le: (T, T) -> bool)
  {
    forall i, j :: 0 <= i < j < |s| ==> le(s[i], s[j])
  }

  /** Putting h in front of a sorted list keeps it sorted when h precedes every element. */
  lemma ConsSorted<T>(h: T, t: seq<T>, le: (T, T) -> bool)
    requires Sorted(t, le)
    requires forall y :: y in t ==> le(h, y)
    ensures Sorted([h] + t, le)
  {
    var r := [h] + t;
    forall i, j | 0 <= i < j < |r| ensures le(r[i], r[j]) {
      assert r[j] == t[j - 1];
      if i == 0 {
        assert t[j - 1] in t;
      } else {
        assert r[i] == t[i - 1];
      }
    }
  }

  /** When x goes after the head, the head precedes everything inserted after it. */
  lemma HeadPrecedesTail<T(!new)>(x: T, s: seq<T>, tail: seq<T>, le: (T, T) -> bool)
    requires TotalPreorder(le) && Sorted(s, le) && s != [] && !le(x, s[0])
    requires multiset(tail) == multiset(s[1..]) + multiset{x}
    ensures forall y :: y in tail ==> le(s[0], y)
  {
    forall y | y in tail ensures le(s[0], y) {
      assert y in multiset(tail);
      if y != x {
        assert y in multiset(s[1..]);
        var j :| 0 <= j < |s[1..]| && s[1..][j] == y;
        assert s[j + 1] == y;
      }
    }
  }

  /** Inserts x before the first element it may precede. */
  function Insert<T(!new)>(x: T, s: seq<T>, le: (T, T) -> bool): (r: seq<T>)
    requires TotalPreorder(le) && Sorted(s, le)
    ensures Sorted(r, le)
    ensures multiset(r) == multiset(s) + multiset{x}
    ensures |r| == |s| + 1
  {
    if s == [] then [x]
    else if le(x, s[0]) then
      assert forall y :: y in s ==> le(x, y);
      ConsSorted(x, s, le);
      [x] + s
    else
      assert Sorted(s[1..], le);
      var tail := Insert(x, s[1..], le);
      assert s == [s[0]] + s[1..];
      HeadPrecedesTail(x, s, tail, le);
      ConsSorted(s[0], tail, le);
      [s[0]] + tail
  }

  function Sort<T(!new)>(s: seq<T>, le: (T, T) -> bool): (r: seq<T>)
    requires TotalPreorder(le)
    ensures Sorted(r, le)
    ensures multiset(r) == multiset(s)
    ensures |r| == |s|
  {
    if s == [] then []
    else
      assert s == [s[0]] + s[1..];
      Insert(s[0], Sort(s[1..], le), le)
  }

  /** Permutations have the same length. */
  lemma PermutationLength<T>(a: seq<T>, b: seq<T>)
    requires multiset(a) == multiset(b)
    ensures |a| == |b|
  {
    assert |multiset(a)| == |multiset(b)|;
  }

  /** A prefix holds no element more often than the whole sequence. */
  lemma PrefixMultiset<T>(s: seq<T>, n: nat)
    requires n <= |s|
    ensures forall x :: multiset(s[..n])[x] <= multiset(s)[x]
  {
    assert s == s[..n] + s[n..];
  }

  /** In a sorted sequence, every element of a prefix precedes every element left out of it. */
  lemma SortedPrefixPrecedes<T>(s: seq<T>, le: (T, T) -> bool, n: nat, x: T)
    requires Sorted(s, le) && n <= |s| && x in s && x !in s[..n]
    ensures forall y :: y in s[..n] ==> le(y, x)
  {
    var j :| 0 <= j < |s| && s[j] == x;
    assert forall i :: 0 <= i < n ==> s[..n][i] == s[i];
    assert j >= n;
    forall y | y in s[..n] ensures le(y, x) {
      var i :| 0 <= i < n && s[..n][i] == y;
    }
  }
}
