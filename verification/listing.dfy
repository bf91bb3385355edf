/**
 * The query shapes the backend asks of its document store, stated over
 * sequences: `find(filter)` keeps the matching records in store order,
 * `.sort({key: -1})` orders them largest key first, `.limit(n)` keeps a
 * prefix, and `findOne` picks the first match.
 */
module Listing {
  import opened Wrappers

  /** The records of `s` that satisfy `p`, in store order (`FilterKeepsOrder`). */
  function Filter<T(==,!new)>(s: seq<T>, p: T -> bool): (r: seq<T>)
    ensures |r| <= |s|
    ensures forall x :: x in r <==> x in s && p(x)
  {
    if |s| == 0 then []
    else (if p(s[0]) then [s[0]] else []) + Filter(s[1..], p)
  }

  /** How many elements of `s` satisfy `p`. */
  function CountWhere<T>(s: seq<T>, p: T -> bool): (n: nat)
    ensures n <= |s|
    ensures n == 0 <==> forall i :: 0 <= i < |s| ==> !p(s[i])
    ensures n == |s| <==> forall i :: 0 <= i < |s| ==> p(s[i])
  {
    if |s| == 0 then 0
    else
      assert forall i :: 1 <= i < |s| ==> s[i] == s[1..][i - 1];
      (if p(s[0]) then 1 else 0) + CountWhere(s[1..], p)
  }

  /** Filtering by a predicate every element meets changes nothing. */
  lemma {:induction false} FilterKeepsAll<T(!new)>(s: seq<T>, p: T -> bool)
    requires forall i :: 0 <= i < |s| ==> p(s[i])
    ensures Filter(s, p) == s
  {
    if |s| > 0 {
      FilterKeepsAll(s[1..], p);
    }
  }

  /** Filtering distributes over concatenation. */
  lemma {:induction false} FilterAppend<T(!new)>(a: seq<T>, b: seq<T>, p: T -> bool)
    ensures Filter(a + b, p) == Filter(a, p) + Filter(b, p)
  {
    if |a| == 0 {
      assert a + b == b;
    } else {
      assert (a + b)[1..] == a[1..] + b;
      FilterAppend(a[1..], b, p);
    }
  }

  /** Two matching records keep their relative order through the filter. */
  lemma FilterKeepsOrder<T(!new)>(s: seq<T>, p: T -> bool, i: nat, j: nat)
    requires i < j < |s| && p(s[i]) && p(s[j])
    ensures exists a, b :: 0 <= a < b < |Filter(s, p)| && Filter(s, p)[a] == s[i] && Filter(s, p)[b] == s[j]
  {
    var front, back := s[..j], s[j..];
    assert s == front + back;
    FilterAppend(front, back, p);
    assert back == [s[j]] + back[1..];
    FilterAppend([s[j]], back[1..], p);
    var f := Filter(front, p);
    assert s[i] in front;
    var a :| 0 <= a < |f| && f[a] == s[i];
    assert Filter(s, p)[a] == s[i];
    assert Filter(s, p)[|f|] == s[j];
  }

  /** `s` is ordered by `key`, largest first. */
  predicate NewestFirst<T>(s: seq<T>, key: T -> int)
  {
    forall i, j :: 0 <= i < j < |s| ==> key(s[i]) >= key(s[j])
  }

  /** In a newest-first listing, of two entries with different keys the larger one comes first. */
  lemma LaterListedFirst<T>(s: seq<T>, key: T -> int, i: nat, j: nat)
    requires NewestFirst(s, key)
    requires i < |s| && j < |s| && key(s[i]) < key(s[j])
    ensures j < i
  {
    assert key(s[i]) < key(s[j]);
  }

  /** `s` is ordered by `key`, smallest first. */
  predicate OldestFirst<T>(s: seq<T>, key: T -> int)
  {
    forall i, j :: 0 <= i < j < |s| ==> key(s[i]) <= key(s[j])
  }

  /** Puts `x` in front of the first element whose key it reaches. */
  function InsertByKey<T(==,!new)>(x: T, s: seq<T>, key: T -> int): (r: seq<T>)
    requires NewestFirst(s, key)
    ensures |r| == |s| + 1
    ensures NewestFirst(r, key)
    ensures multiset(r) == multiset(s) + multiset{x}
    ensures forall y :: y in r ==> y == x || y in s
  {
    if |s| == 0 || key(x) >= key(s[0]) then [x] + s
    else
      var rest := InsertByKey(x, s[1..], key);
      assert s == [s[0]] + s[1..];
      assert forall k :: 0 <= k < |rest| ==> key(rest[k]) <= key(s[0]) by {
        forall k | 0 <= k < |rest| ensures key(rest[k]) <= key(s[0]) {
          assert rest[k] in rest;
          if rest[k] != x {
            var m :| 0 <= m < |s[1..]| && s[1..][m] == rest[k];
            assert s[m + 1] == rest[k];
          }
        }
      }
      [s[0]] + rest
  }

  /** A permutation of `s`, largest key first. */
  function SortNewestFirst<T(==,!new)>(s: seq<T>, key: T -> int): (r: seq<T>)
    ensures |r| == |s|
    ensures NewestFirst(r, key)
    ensures multiset(r) == multiset(s)
  {
    if |s| == 0 then []
    else
      assert s == [s[0]] + s[1..];
      InsertByKey(s[0], SortNewestFirst(s[1..], key), key)
  }

  /** Sequences with the same multiset hold the same elements. */
  lemma SameElements<T(!new)>(a: seq<T>, b: seq<T>)
    requires multiset(a) == multiset(b)
    ensures forall x :: x in a <==> x in b
  {
    forall x ensures x in a <==> x in b {
      assert x in a <==> x in multiset(a);
      assert x in b <==> x in multiset(b);
    }
  }

  /** Every element a sorted prefix leaves out has a key no larger than any it keeps. */
  lemma PrefixOfSortedIsNewest<T(!new)>(sorted: seq<T>, n: nat, key: T -> int)
    requires NewestFirst(sorted, key)
    requires n <= |sorted|
    ensures forall x, y :: x in sorted && x !in sorted[..n] && y in sorted[..n] ==> key(x) <= key(y)
  {
    forall x, y | x in sorted && x !in sorted[..n] && y in sorted[..n]
      ensures key(x) <= key(y)
    {
      var j :| 0 <= j < |sorted| && sorted[j] == x;
      var i :| 0 <= i < n && sorted[..n][i] == y;
    }
  }

  /** A limited prefix of a sorted permutation keeps the newest matching records. */
  lemma SortedPrefixIsNewest<T(!new)>(s: seq<T>, p: T -> bool, key: T -> int, n: nat)
    requires n <= |Filter(s, p)|
    ensures var r := SortNewestFirst(Filter(s, p), key)[..n];
      && (forall x :: x in r ==> x in s && p(x))
      && (forall x, y :: x in s && p(x) && x !in r && y in r ==> key(x) <= key(y))
  {
    var matching := Filter(s, p);
    var sorted := SortNewestFirst(matching, key);
    PrefixOfSortedIsNewest(sorted, n, key);
    forall x | x in sorted[..n] ensures x in s && p(x) {
      assert x in multiset(sorted);
      assert x in matching;
    }
    forall x | x in s && p(x) ensures x in sorted {
      assert x in matching;
      assert x in multiset(matching);
    }
  }

  /**
   * `find(p).sort({key: -1}).limit(limit)`: at most `limit` matching records,
   * largest key first, and nothing left out is newer than anything kept.
   */
  function Newest<T(==,!new)>(s: seq<T>, p: T -> bool, key: T -> int, limit: nat): (r: seq<T>)
    ensures |r| == Min(limit, |Filter(s, p)|)
    ensures NewestFirst(r, key)
    ensures forall x :: x in r ==> x in s && p(x)
    ensures forall x, y :: x in s && p(x) && x !in r && y in r ==> key(x) <= key(y)
  {
    var n := Min(limit, |Filter(s, p)|);
    SortedPrefixIsNewest(s, p, key, n);
    SortNewestFirst(Filter(s, p), key)[..n]
  }

  /** `s` back to front. */
  function Reverse<T(!new)>(s: seq<T>): (r: seq<T>)
    ensures |r| == |s|
    ensures forall i :: 0 <= i < |s| ==> r[i] == s[|s| - 1 - i]
    ensures forall x :: x in r <==> x in s
  {
    if |s| == 0 then [] else
      assert s == [s[0]] + s[1..];
      Reverse(s[1..]) + [s[0]]
  }

  lemma ReverseOfNewestIsOldest<T(!new)>(s: seq<T>, key: T -> int)
    requires NewestFirst(s, key)
    ensures OldestFirst(Reverse(s), key)
  {
  }

  /**
   * `find(p).sort({key: -1}).limit(limit)` handed back in reverse: the same
   * records as `Newest`, oldest first.
   */
  function RecentOldestFirst<T(==,!new)>(s: seq<T>, p: T -> bool, key: T -> int, limit: nat): (r: seq<T>)
    ensures |r| == Min(limit, |Filter(s, p)|)
    ensures OldestFirst(r, key)
    ensures forall x :: x in r ==> x in s && p(x)
    ensures forall x, y :: x in s && p(x) && x !in r && y in r ==> key(x) <= key(y)
  {
    var newest := Newest(s, p, key, limit);
    ReverseOfNewestIsOldest(newest, key);
    Reverse(newest)
  }

  /** An element newer than everything before it is the last one of the reversed listing, once appended. */
  lemma NewestEndsRecent<T(!new)>(s: seq<T>, x: T, p: T -> bool, key: T -> int, limit: nat)
    requires limit > 0 && p(x)
    requires forall i :: 0 <= i < |s| ==> key(s[i]) < key(x)
    ensures var r := RecentOldestFirst(s + [x], p, key, limit);
      |r| > 0 && r[|r| - 1] == x
  {
    var all := s + [x];
    var r := RecentOldestFirst(all, p, key, limit);
    assert forall y :: y in all && y != x ==> key(y) < key(x) by {
      forall y | y in all && y != x ensures key(y) < key(x) {
        var i :| 0 <= i < |all| && all[i] == y;
        assert i < |s|;
      }
    }
    assert |r| > 0 by {
      FilterAppend(s, [x], p);
      assert |Filter(all, p)| > 0;
    }
    var last := r[|r| - 1];
    assert x in r by {
      assert last in r;
    }
    assert last == x by {
      var k :| 0 <= k < |r| && r[k] == x;
      assert key(x) <= key(last);
    }
  }

  /** Index of the first element of `s` satisfying `p`, as `findOne` picks it. */
  function IndexWhere<T>(s: seq<T>, p: T -> bool): (r: Option<nat>)
    ensures r.None? <==> forall i :: 0 <= i < |s| ==> !p(s[i])
    ensures r.Some? ==> r.value < |s| && p(s[r.value])
    ensures r.Some? ==> forall i :: 0 <= i < r.value ==> !p(s[i])
  {
    if |s| == 0 then None
    else if p(s[0]) then Some(0)
    else match IndexWhere(s[1..], p)
      case None => None
      case Some(k) => Some(k + 1)
  }

  /** `s` without position `i`. */
  function RemoveAt<T>(s: seq<T>, i: nat): (r: seq<T>)
    requires i < |s|
    ensures |r| == |s| - 1
    ensures forall k :: 0 <= k < i ==> r[k] == s[k]
    ensures forall k :: i <= k < |r| ==> r[k] == s[k + 1]
  {
    s[..i] + s[i + 1..]
  }
}
