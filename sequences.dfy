/** Selecting and ordering rows: the `WHERE` and `ORDER BY` of the board's queries and the `sort`
    of the session list, over sequences. */
module Sequences {
  /** A comparison that may serve as a sort key: every two values are comparable, transitively. */
  ghost predicate TotalPreorder<T(!new)>(leq: (T, T) -> bool)
  {
    && (forall a, b :: leq(a, b) || leq(b, a))
    && (forall a, b, c :: leq(a, b) && leq(b, c) ==> leq(a, c))
  }

  /** Every element may precede every later one. */
  ghost predicate SortedBy<T>(s: seq<T>, leq: (T, T) -> bool)
  {
    forall i, j :: 0 <= i < j < |s| ==> leq(s[i], s[j])
  }

  /** The elements that satisfy `p`, in their order. */
  function Filter<T(!new)>(s: seq<T>, p: T -> bool): (r: seq<T>)
    ensures |r| <= |s|
    ensures forall x :: x in r <==> x in s && p(x)
  {
    if s == [] then []
    else (if p(s[0]) then [s[0]] else []) + Filter(s[1..], p)
  }

  /** Filtering keeps the order of what it keeps. */
  lemma {:induction false} FilterKeepsOrder<T(!new)>(s: seq<T>, p: T -> bool, leq: (T, T) -> bool)
    requires SortedBy(s, leq)
    ensures SortedBy(Filter(s, p), leq)
  {
    if s != [] {
      var rest := Filter(s[1..], p);
      assert SortedBy(s[1..], leq) by {
        forall i, j | 0 <= i < j < |s[1..]| ensures leq(s[1..][i], s[1..][j]) {
          assert s[1..][i] == s[i + 1] && s[1..][j] == s[j + 1];
        }
      }
      FilterKeepsOrder(s[1..], p, leq);
      if p(s[0]) {
        var r := [s[0]] + rest;
        forall i, j | 0 <= i < j < |r| ensures leq(r[i], r[j]) {
          if i == 0 {
            assert r[j] in s[1..];
            var k :| 0 <= k < |s[1..]| && s[1..][k] == r[j];
            assert s[k + 1] == r[j];
          } else {
            assert r[i] == rest[i - 1] && r[j] == rest[j - 1];
          }
        }
      }
    }
  }

  /** Two tests that agree on every element select the same elements. */
  lemma {:induction false} FilterAgrees<T(!new)>(s: seq<T>, p: T -> bool, q: T -> bool)
    requires forall x :: x in s ==> p(x) == q(x)
    ensures Filter(s, p) == Filter(s, q)
  {
    if s != [] {
      assert forall x :: x in s[1..] ==> x in s;
      FilterAgrees(s[1..], p, q);
    }
  }

  /** `x` placed before the first element it may precede, so that it stays ahead of the elements
      it ties with. */
  function Insert<T>(x: T, s: seq<T>, leq: (T, T) -> bool): (r: seq<T>)
    ensures multiset(r) == multiset(s) + multiset{x}
  {
    if s == [] then [x]
    else if leq(x, s[0]) then [x] + s
    else
      assert s == [s[0]] + s[1..];
      [s[0]] + Insert(x, s[1..], leq)
  }

  /** A stable insertion sort: the order the rows come in breaks ties. */
  function SortBy<T>(s: seq<T>, leq: (T, T) -> bool): (r: seq<T>)
    ensures multiset(r) == multiset(s)
  {
    if s == [] then []
    else
      assert s == [s[0]] + s[1..];
      Insert(s[0], SortBy(s[1..], leq), leq)
  }

  /** An element that may precede the head of a sorted sequence may lead it. */
  lemma PrependSorted<T(!new)>(x: T, s: seq<T>, leq: (T, T) -> bool)
    requires TotalPreorder(leq) && SortedBy(s, leq) && s != [] && leq(x, s[0])
    ensures SortedBy([x] + s, leq)
  {
    var r := [x] + s;
    forall i, j | 0 <= i < j < |r| ensures leq(r[i], r[j]) {
      if i == 0 {
        assert r[j] == s[j - 1];
        if j > 1 { assert leq(s[0], s[j - 1]); }
      } else {
        assert r[i] == s[i - 1] && r[j] == s[j - 1];
      }
    }
  }

  lemma {:induction false} InsertSorted<T(!new)>(x: T, s: seq<T>, leq: (T, T) -> bool)
    requires TotalPreorder(leq) && SortedBy(s, leq)
    ensures SortedBy(Insert(x, s, leq), leq)
  {
    if s != [] {
      var r := Insert(x, s, leq);
      if leq(x, s[0]) {
        PrependSorted(x, s, leq);
      } else {
        var tail := s[1..];
        assert SortedBy(tail, leq) by {
          forall i, j | 0 <= i < j < |tail| ensures leq(tail[i], tail[j]) {
            assert tail[i] == s[i + 1] && tail[j] == s[j + 1];
          }
        }
        InsertSorted(x, tail, leq);
        var rest := Insert(x, tail, leq);
        assert leq(s[0], x);
        forall y | y in rest ensures leq(s[0], y) {
          assert y in multiset(rest);
          if y != x {
            assert y in multiset(tail);
            var k :| 0 <= k < |tail| && tail[k] == y;
            assert s[k + 1] == y;
          }
        }
        forall i, j | 0 <= i < j < |r| ensures leq(r[i], r[j]) {
          if i == 0 {
            assert r[j] == rest[j - 1];
            assert r[j] in rest;
          } else {
            assert r[i] == rest[i - 1] && r[j] == rest[j - 1];
          }
        }
      }
    }
  }

  /** The sort orders its input by `leq` and keeps every element as often as it occurs. */
  lemma {:induction false} SortBySorted<T(!new)>(s: seq<T>, leq: (T, T) -> bool)
    requires TotalPreorder(leq)
    ensures SortedBy(SortBy(s, leq), leq)
    ensures multiset(SortBy(s, leq)) == multiset(s)
  {
    if s != [] {
      SortBySorted(s[1..], leq);
      InsertSorted(s[0], SortBy(s[1..], leq), leq);
    }
  }

  /** In a sequence without repeats, an element occurs once or not at all. */
  lemma {:induction false} NoRepeatsOccurOnce<T>(s: seq<T>, x: T)
    requires forall i, j :: 0 <= i < j < |s| ==> s[i] != s[j]
    ensures multiset(s)[x] == if x in s then 1 else 0
  {
    if s != [] {
      var tail := s[1..];
      NoRepeatsOccurOnce(tail, x);
      assert s == [s[0]] + tail;
      if x == s[0] {
        forall k | 0 <= k < |tail| ensures tail[k] != x {
          assert tail[k] == s[k + 1];
        }
      }
    }
  }
}
