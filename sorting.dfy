/** The result of JavaScript's `Array.prototype.sort` with a comparator. The
    language guarantees a stable sort, and for a comparator that is a total
    preorder a stable sort has exactly one possible result; `SortBy` computes it
    by insertion, with `le(a, b)` standing for `compare(a, b) <= 0`. */
module Sorting {

  ghost predicate TotalPreorder<T(!new)>(le: (T, T) -> bool)
  {
    && (forall a, b :: le(a, b) || le(b, a))
    && (forall a, b, c :: le(a, b) && le(b, c) ==> le(a, c))
  }

  ghost predicate SortedBy<T>(s: seq<T>, le: (T, T) -> bool)
  {
    forall i, j :: 0 <= i < j < |s| ==> le(s[i], s[j])
  }

  /** Inserts x before the first element it does not follow. */
  function Insert<T>(x: T, s: seq<T>, le: (T, T) -> bool): (r: seq<T>)
    ensures |r| == |s| + 1
    ensures multiset(r) == multiset(s) + multiset{x}
  {
    if s == [] then [x]
    else if le(x, s[0]) then [x] + s
    else
      assert s == [s[0]] + s[1..];
      [s[0]] + Insert(x, s[1..], le)
  }

  function SortBy<T>(s: seq<T>, le: (T, T) -> bool): (r: seq<T>)
    ensures |r| == |s|
    ensures multiset(r) == multiset(s)
  {
    if s == [] then []
    else
      assert s == [s[0]] + s[1..];
      Insert(s[0], SortBy(s[1..], le), le)
  }

  lemma {:induction false} InsertSorted<T(!new)>(x: T, s: seq<T>, le: (T, T) -> bool)
    requires TotalPreorder(le)
    requires SortedBy(s, le)
    ensures SortedBy(Insert(x, s, le), le)
  {
    if s != [] && !le(x, s[0]) {
      InsertSorted(x, s[1..], le);
      var r := Insert(x, s, le);
      var t := Insert(x, s[1..], le);
      assert r == [s[0]] + t;
      forall j | 0 < j < |r|
        ensures le(r[0], r[j])
      {
        assert r[j] in multiset(t);
        assert r[j] in multiset(s[1..]) + multiset{x};
        if r[j] != x {
          assert r[j] in s[1..];
          var k :| 0 <= k < |s[1..]| && s[1..][k] == r[j];
          assert s[k + 1] == r[j];
        }
      }
    }
  }

  /** The sorted output is ordered by `le` and is a permutation of the input. */
  lemma {:induction false} SortBySorted<T(!new)>(s: seq<T>, le: (T, T) -> bool)
    requires TotalPreorder(le)
    ensures SortedBy(SortBy(s, le), le)
  {
    if s != [] {
      SortBySorted(s[1..], le);
      InsertSorted(s[0], SortBy(s[1..], le), le);
    }
  }

  /** Sorting keeps exactly the elements it was given. */
  lemma SortByMembers<T>(s: seq<T>, le: (T, T) -> bool)
    ensures forall x :: x in SortBy(s, le) <==> x in s
  {
    var r := SortBy(s, le);
    forall x
      ensures x in r <==> x in s
    {
      assert x in r <==> x in multiset(r);
      assert x in s <==> x in multiset(s);
    }
  }

  /** Taking a prefix of a sorted sequence keeps the least elements: whatever
      is left out compares at least as large as whatever is kept. */
  lemma SortedPrefixLeast<T>(s: seq<T>, le: (T, T) -> bool, n: int, x: T, y: T)
    requires SortedBy(s, le) && 0 <= n <= |s|
    requires x in s[..n] && y in s && y !in s[..n]
    ensures le(x, y)
  {
    var i :| 0 <= i < n && s[..n][i] == x;
    var j :| 0 <= j < |s| && s[j] == y;
    assert forall k :: 0 <= k < n ==> s[..n][k] == s[k];
    assert s[i] == x;
  }

  /** No element of s without property p stands, in s, before an element with p. */
  ghost predicate PFirst<T>(s: seq<T>, p: T -> bool)
  {
    forall i, j :: 0 <= i < j < |s| && p(s[j]) ==> p(s[i])
  }

  /** No element without p precedes an element with p that it is tied with. */
  ghost predicate StableFor<T>(s: seq<T>, p: T -> bool, le: (T, T) -> bool)
  {
    forall i, j :: 0 <= i < j < |s| && p(s[j]) && le(s[j], s[i]) ==> p(s[i])
  }

  lemma {:induction false} InsertStable<T(!new)>(x: T, s: seq<T>, p: T -> bool, le: (T, T) -> bool)
    requires TotalPreorder(le)
    requires StableFor(s, p, le)
    requires p(x) || forall y :: y in s ==> !p(y)
    ensures StableFor(Insert(x, s, le), p, le)
  {
    var r := Insert(x, s, le);
    if s == [] {
    } else if le(x, s[0]) {
      assert r == [x] + s;
      forall i, j | 0 <= i < j < |r| && p(r[j]) && le(r[j], r[i])
        ensures p(r[i])
      {
        if i > 0 {
          assert r[i] == s[i - 1] && r[j] == s[j - 1];
        }
      }
    } else {
      var t := Insert(x, s[1..], le);
      assert r == [s[0]] + t;
      assert p(x) || forall y :: y in s[1..] ==> !p(y);
      InsertStable(x, s[1..], p, le);
      forall i, j | 0 <= i < j < |r| && p(r[j]) && le(r[j], r[i])
        ensures p(r[i])
      {
        if i == 0 {
          assert r[j] in multiset(t);
          assert r[j] in multiset(s[1..]) + multiset{x};
          if r[j] != x {
            assert r[j] in s[1..];
            var k :| 0 <= k < |s[1..]| && s[1..][k] == r[j];
            assert s[k + 1] == r[j];
          }
        } else {
          assert r[i] == t[i - 1] && r[j] == t[j - 1];
        }
      }
    }
  }

  /** Stability: when every element with p comes before every element
      without it, sorting never moves an element without p in front of an
      element with p that compares equal to it. */
  lemma {:induction false} SortByStable<T(!new)>(s: seq<T>, p: T -> bool, le: (T, T) -> bool)
    requires TotalPreorder(le)
    requires PFirst(s, p)
    ensures StableFor(SortBy(s, le), p, le)
  {
    if s != [] {
      assert PFirst(s[1..], p);
      SortByStable(s[1..], p, le);
      if !p(s[0]) {
        forall y | y in SortBy(s[1..], le)
          ensures !p(y)
        {
          assert y in multiset(SortBy(s[1..], le));
          assert y in s[1..];
        }
      }
      InsertStable(s[0], SortBy(s[1..], le), p, le);
    }
  }
}
