/** Stable sorting by an integer key, as index reads and `sorted` do it. */
module Ordering {
  ghost predicate SortedBy<T>(xs: seq<T>, key: T -> int) {
    forall i, j | 0 <= i < j < |xs| :: key(xs[i]) <= key(xs[j])
  }

  /** Insert after every element whose key is not larger. */
  function Insert<T>(x: T, xs: seq<T>, key: T -> int): seq<T> {
    if xs == [] then [x]
    else
      var last := xs[|xs| - 1];
      if key(last) <= key(x) then xs + [x] else Insert(x, xs[..|xs| - 1], key) + [last]
  }

  function StableSort<T>(xs: seq<T>, key: T -> int): seq<T> {
    if xs == [] then [] else Insert(xs[|xs| - 1], StableSort(xs[..|xs| - 1], key), key)
  }

  function Reverse<T>(xs: seq<T>): seq<T> {
    seq(|xs|, i requires 0 <= i < |xs| => xs[|xs| - 1 - i])
  }

  /** The newest `limit` rows, newest first: an index read in descending order. */
  function Newest<T>(xs: seq<T>, key: T -> int, limit: nat): seq<T> {
    var descending := Reverse(StableSort(xs, key));
    if |descending| <= limit then descending else descending[..limit]
  }

  lemma {:induction false} InsertPermutes<T>(x: T, xs: seq<T>, key: T -> int)
    ensures multiset(Insert(x, xs, key)) == multiset(xs) + multiset{x}
    ensures |Insert(x, xs, key)| == |xs| + 1
  {
    if xs != [] {
      assert xs == xs[..|xs| - 1] + [xs[|xs| - 1]];
      InsertPermutes(x, xs[..|xs| - 1], key);
    }
  }

  ghost predicate AtMost<T>(xs: seq<T>, key: T -> int, bound: int) {
    forall i | 0 <= i < |xs| :: key(xs[i]) <= bound
  }

  lemma {:induction false} InsertAtMost<T>(x: T, xs: seq<T>, key: T -> int, bound: int)
    requires AtMost(xs, key, bound) && key(x) <= bound
    ensures AtMost(Insert(x, xs, key), key, bound)
  {
    if xs != [] {
      InsertAtMost(x, xs[..|xs| - 1], key, bound);
    }
  }

  lemma SortedAppend<T>(xs: seq<T>, last: T, key: T -> int)
    requires SortedBy(xs, key) && AtMost(xs, key, key(last))
    ensures SortedBy(xs + [last], key)
  {
  }

  lemma {:induction false} InsertSorts<T>(x: T, xs: seq<T>, key: T -> int)
    requires SortedBy(xs, key)
    ensures SortedBy(Insert(x, xs, key), key)
  {
    if xs != [] {
      var init, last := xs[..|xs| - 1], xs[|xs| - 1];
      assert AtMost(init, key, key(last));
      if key(last) <= key(x) {
        SortedAppend(xs, x, key);
      } else {
        InsertSorts(x, init, key);
        InsertAtMost(x, init, key, key(last));
        SortedAppend(Insert(x, init, key), last, key);
      }
    }
  }

  lemma {:induction false} SortSorts<T>(xs: seq<T>, key: T -> int)
    ensures SortedBy(StableSort(xs, key), key)
  {
    if xs != [] {
      SortSorts(xs[..|xs| - 1], key);
      InsertSorts(xs[|xs| - 1], StableSort(xs[..|xs| - 1], key), key);
    }
  }

  lemma {:induction false} SortPermutes<T>(xs: seq<T>, key: T -> int)
    ensures multiset(StableSort(xs, key)) == multiset(xs) && |StableSort(xs, key)| == |xs|
  {
    if xs != [] {
      assert xs == xs[..|xs| - 1] + [xs[|xs| - 1]];
      SortPermutes(xs[..|xs| - 1], key);
      InsertPermutes(xs[|xs| - 1], StableSort(xs[..|xs| - 1], key), key);
    }
  }

  lemma SortKeeps<T>(xs: seq<T>, key: T -> int)
    ensures SortedBy(StableSort(xs, key), key)
    ensures multiset(StableSort(xs, key)) == multiset(xs) && |StableSort(xs, key)| == |xs|
  {
    SortSorts(xs, key);
    SortPermutes(xs, key);
  }

  lemma {:induction false} SortedStays<T>(xs: seq<T>, key: T -> int)
    requires SortedBy(xs, key)
    ensures StableSort(xs, key) == xs
  {
    if xs != [] {
      var init, last := xs[..|xs| - 1], xs[|xs| - 1];
      SortedStays(init, key);
      assert init == [] || key(init[|init| - 1]) <= key(last);
      assert xs == init + [last];
    }
  }

  lemma ReverseTwice<T>(xs: seq<T>)
    ensures Reverse(Reverse(xs)) == xs
  {
  }

  /** Reading the newest rows and reversing them gives the tail of the log in write order. */
  lemma NewestReversed<T>(xs: seq<T>, key: T -> int, limit: nat)
    requires SortedBy(xs, key)
    ensures Reverse(Newest(xs, key, limit)) == if |xs| <= limit then xs else xs[|xs| - limit..]
  {
    SortedStays(xs, key);
    ReverseTwice(xs);
  }

  lemma NewestEmpty<T>(xs: seq<T>, key: T -> int, limit: nat)
    requires limit > 0
    ensures Newest(xs, key, limit) == [] <==> xs == []
  {
    SortKeeps(xs, key);
  }

  lemma NewestAreRows<T>(xs: seq<T>, key: T -> int, limit: nat)
    ensures forall x | x in Newest(xs, key, limit) :: x in xs
  {
    SortKeeps(xs, key);
    forall x | x in Newest(xs, key, limit)
      ensures x in xs
    {
      assert x in StableSort(xs, key);
      assert x in multiset(StableSort(xs, key));
      assert x in multiset(xs);
    }
  }

  lemma ReverseMembers<T>(xs: seq<T>)
    ensures forall x :: x in Reverse(xs) <==> x in xs
  {
    forall x | x in xs
      ensures x in Reverse(xs)
    {
      var i :| 0 <= i < |xs| && xs[i] == x;
      assert Reverse(xs)[|xs| - 1 - i] == x;
    }
  }

  /** In a log kept in order, the newest rows are those within `limit` of its end. */
  lemma NewestAreLast<T>(xs: seq<T>, key: T -> int, limit: nat)
    requires SortedBy(xs, key)
    ensures forall x :: x in Newest(xs, key, limit) <==> exists i | 0 <= i < |xs| && |xs| <= i + limit :: xs[i] == x
  {
    var newest, tail := Newest(xs, key, limit), if |xs| <= limit then xs else xs[|xs| - limit..];
    NewestReversed(xs, key, limit);
    ReverseMembers(newest);
    forall i | 0 <= i < |xs| && |xs| <= i + limit
      ensures xs[i] in tail
    {
      assert xs[i] == tail[i - (|xs| - |tail|)];
    }
  }
}
