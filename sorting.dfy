/** The sorts the jobs rely on: `Array.prototype.sort` on id arrays in arraysEqual
 *  (cloud/jobs.js:130-131) and underscore's stable `_.sortBy` on createdAt
 *  (cloud/jobs.js:204). Both are an insertion sort by a key here. */
module Sorting {
  /** s is in ascending order of key. */
  predicate SortedBy<T>(s: seq<T>, key: T -> int)
  {
    forall i, j :: 0 <= i < j < |s| ==> key(s[i]) <= key(s[j])
  }

  /** An element no larger than the head of a sorted list can go in front of it. */
  lemma SortedCons<T>(h: T, t: seq<T>, key: T -> int)
    requires SortedBy(t, key) && (t == [] || key(h) <= key(t[0]))
    ensures SortedBy([h] + t, key)
  {
    var s := [h] + t;
    forall i, j | 0 <= i < j < |s| ensures key(s[i]) <= key(s[j]) {
      if i == 0 {
        assert s[j] == t[j - 1];
        if j > 1 {
          assert key(t[0]) <= key(t[j - 1]);
        }
      } else {
        assert s[i] == t[i - 1] && s[j] == t[j - 1];
      }
    }
  }

  /** x placed after every element whose key is not larger, in a sorted list. */
  function InsertBy<T(==,!new)>(x: T, s: seq<T>, key: T -> int): (r: seq<T>)
    requires SortedBy(s, key)
    ensures SortedBy(r, key)
    ensures multiset(r) == multiset(s) + multiset{x}
    ensures |r| == |s| + 1
    ensures r[0] == x || (s != [] && r[0] == s[0])
  {
    if s == [] || key(x) < key(s[0]) then
      SortedCons(x, s, key);
      [x] + s
    else
      var tail := s[1..];
      assert SortedBy(tail, key) by {
        forall i, j | 0 <= i < j < |tail| ensures key(tail[i]) <= key(tail[j]) {
          assert tail[i] == s[i + 1] && tail[j] == s[j + 1];
        }
      }
      var rest := InsertBy(x, tail, key);
      assert s == [s[0]] + tail;
      assert tail != [] ==> key(s[0]) <= key(tail[0]);
      SortedCons(s[0], rest, key);
      [s[0]] + rest
  }

  /** A stable insertion sort: the elements of s in ascending order of key. */
  function SortBy<T(==,!new)>(s: seq<T>, key: T -> int): (r: seq<T>)
    ensures SortedBy(r, key)
    ensures multiset(r) == multiset(s)
    ensures |r| == |s|
  {
    if s == [] then []
    else
      assert s == s[..|s| - 1] + [s[|s| - 1]];
      InsertBy(s[|s| - 1], SortBy(s[..|s| - 1], key), key)
  }

  /** The sort inserts the last element into the sorted prefix. */
  lemma SortByUnfold<T(!new)>(s: seq<T>, key: T -> int)
    requires s != []
    ensures SortBy(s, key) == InsertBy(s[|s| - 1], SortBy(s[..|s| - 1], key), key)
  {
  }

  /** An element whose key is below every key of a non-empty list is below its sorted head. */
  lemma BelowSortedHead<T(!new)>(x: T, s: seq<T>, key: T -> int)
    requires s != [] && forall j :: 0 <= j < |s| ==> key(x) < key(s[j])
    ensures key(x) < key(SortBy(s, key)[0])
  {
    var h := SortBy(s, key)[0];
    assert h in multiset(s);
    var j :| 0 <= j < |s| && s[j] == h;
  }

  /** Inserting an element whose key is below the head of a sorted list puts it first. */
  lemma InsertBelowHead<T(!new)>(x: T, s: seq<T>, key: T -> int)
    requires SortedBy(s, key) && (s == [] || key(x) < key(s[0]))
    ensures InsertBy(x, s, key)[0] == x
  {
  }

  /** A last element whose key is below every earlier key comes first. */
  lemma LastBelowAllComesFirst<T(!new)>(s: seq<T>, key: T -> int)
    requires |s| >= 1
    requires forall j :: 0 <= j < |s| - 1 ==> key(s[|s| - 1]) < key(s[j])
    ensures SortBy(s, key)[0] == s[|s| - 1]
  {
    var init := s[..|s| - 1];
    var x := s[|s| - 1];
    SortByUnfold(s, key);
    if init != [] {
      assert forall j :: 0 <= j < |init| ==> init[j] == s[j];
      BelowSortedHead(x, init, key);
    }
    InsertBelowHead(x, SortBy(init, key), key);
  }

  /** A last element whose key is not below the sorted prefix's head leaves that head first. */
  lemma LastNotBelowKeepsHead<T(!new)>(s: seq<T>, key: T -> int)
    requires |s| >= 2
    requires key(SortBy(s[..|s| - 1], key)[0]) <= key(s[|s| - 1])
    ensures SortBy(s, key)[0] == SortBy(s[..|s| - 1], key)[0]
  {
    SortByUnfold(s, key);
  }

  /** Stability at the head: among the elements with the smallest key, the sort puts first
   *  the one listed first. */
  lemma {:induction false} SortByHeadIsFirstMinimum<T(!new)>(s: seq<T>, key: T -> int, i: int)
    requires 0 <= i < |s|
    requires forall j :: 0 <= j < |s| ==> key(s[i]) <= key(s[j])
    requires forall j :: 0 <= j < i ==> key(s[i]) < key(s[j])
    ensures SortBy(s, key)[0] == s[i]
    decreases |s|
  {
    if i == |s| - 1 {
      LastBelowAllComesFirst(s, key);
    } else {
      var init := s[..|s| - 1];
      SortByHeadIsFirstMinimum(init, key, i);
      LastNotBelowKeepsHead(s, key);
    }
  }

  /** Ids compare as numbers in this model. */
  function IdOrder(x: nat): int
  {
    x
  }

  /** Two ascending id lists with the same elements start with the same id. */
  lemma SortedHeadsEqual(a: seq<nat>, b: seq<nat>)
    requires SortedBy(a, IdOrder) && SortedBy(b, IdOrder)
    requires multiset(a) == multiset(b) && a != []
    ensures b != [] && a[0] == b[0]
  {
    assert a[0] in multiset(b);
    var i :| 0 <= i < |b| && b[i] == a[0];
    assert b[0] in multiset(a);
    var j :| 0 <= j < |a| && a[j] == b[0];
    assert IdOrder(b[0]) <= IdOrder(b[i]);
    assert IdOrder(a[0]) <= IdOrder(a[j]);
  }

  /** The tail of an ascending list is ascending, and holds the list's elements but its head. */
  lemma SortedTail(a: seq<nat>)
    requires SortedBy(a, IdOrder) && a != []
    ensures SortedBy(a[1..], IdOrder)
    ensures multiset(a[1..]) == multiset(a) - multiset{a[0]}
  {
    assert a == [a[0]] + a[1..];
    forall i, j | 0 <= i < j < |a[1..]| ensures IdOrder(a[1..][i]) <= IdOrder(a[1..][j]) {
      assert a[1..][i] == a[i + 1] && a[1..][j] == a[j + 1];
    }
  }

  /** Two ascending id lists are equal exactly when they hold the same ids as often. */
  lemma {:induction false} SortedIdsEqual(a: seq<nat>, b: seq<nat>)
    requires SortedBy(a, IdOrder) && SortedBy(b, IdOrder)
    ensures a == b <==> multiset(a) == multiset(b)
  {
    if multiset(a) == multiset(b) {
      if a == [] {
        assert |multiset(b)| == 0;
      } else {
        SortedHeadsEqual(a, b);
        SortedTail(a);
        SortedTail(b);
        SortedIdsEqual(a[1..], b[1..]);
        assert a == [a[0]] + a[1..] && b == [b[0]] + b[1..];
      }
    }
  }

  /** Sorting forgets the order of its input: two lists with the same elements sort alike. */
  lemma SortIgnoresOrder(a: seq<nat>, b: seq<nat>)
    requires multiset(a) == multiset(b)
    ensures SortBy(a, IdOrder) == SortBy(b, IdOrder)
  {
    SortedIdsEqual(SortBy(a, IdOrder), SortBy(b, IdOrder));
  }
}
