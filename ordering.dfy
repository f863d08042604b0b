/** A stable sort on a lexicographic rank, descending. It stands for both
    orderings in the system: the SQL `ORDER BY votes DESC, queued_at` of the
    queue listing and the client's `Array.prototype.sort` by votes, which
    ECMAScript requires to be stable. SQLite leaves the order of rows that tie
    on both columns unspecified; the model breaks such ties by table order,
    and no lemma about the server's queue depends on that choice. */
module Ordering {

  /** A sort key compared lexicographically, `primary` first; greater keys
      come first. */
  datatype Rank = Rank(primary: int, secondary: int)

  /** `a` sorts strictly before `b`. */
  predicate Outranks(a: Rank, b: Rank) {
    a.primary > b.primary || (a.primary == b.primary && a.secondary > b.secondary)
  }

  /** No element is outranked by an element after it. */
  ghost predicate Ordered<T>(s: seq<T>, rank: T -> Rank) {
    forall i, j :: 0 <= i < j < |s| ==> !Outranks(rank(s[j]), rank(s[i]))
  }

  /** The elements of `s` whose rank is exactly `k`, in their order in `s`. */
  function WithRank<T>(s: seq<T>, rank: T -> Rank, k: Rank): (r: seq<T>)
    ensures forall x :: x in r ==> x in s && rank(x) == k
  {
    if s == [] then []
    else (if rank(s[0]) == k then [s[0]] else []) + WithRank(s[1..], rank, k)
  }

  /** Puts `x` after every element ranked strictly above it and before the
      first one that is not. */
  function Insert<T>(x: T, s: seq<T>, rank: T -> Rank): (r: seq<T>)
    ensures multiset(r) == multiset(s) + multiset{x}
  {
    if s == [] then [x]
    else if Outranks(rank(s[0]), rank(x)) then
      assert s == [s[0]] + s[1..];
      [s[0]] + Insert(x, s[1..], rank)
    else [x] + s
  }

  /** Not being outranked is transitive: lexicographic order is total. */
  lemma NotOutrankedTransitive(a: Rank, b: Rank, c: Rank)
    requires !Outranks(a, b) && !Outranks(b, c)
    ensures !Outranks(a, c)
  {
  }

  lemma OrderedCons<T>(h: T, t: seq<T>, rank: T -> Rank)
    requires Ordered(t, rank)
    requires forall y :: y in t ==> !Outranks(rank(y), rank(h))
    ensures Ordered([h] + t, rank)
  {
    var r := [h] + t;
    forall i, j | 0 <= i < j < |r|
      ensures !Outranks(rank(r[j]), rank(r[i]))
    {
      assert r[j] == t[j - 1];
      if i > 0 {
        assert r[i] == t[i - 1];
      }
    }
  }

  lemma {:induction false} InsertKeepsOrder<T>(x: T, s: seq<T>, rank: T -> Rank)
    requires Ordered(s, rank)
    ensures Ordered(Insert(x, s, rank), rank)
  {
    if s == [] {
    } else if Outranks(rank(s[0]), rank(x)) {
      var tail := Insert(x, s[1..], rank);
      assert Ordered(s[1..], rank);
      InsertKeepsOrder(x, s[1..], rank);
      assert s == [s[0]] + s[1..];
      forall y | y in tail
        ensures !Outranks(rank(y), rank(s[0]))
      {
        assert y in multiset(s[1..]) + multiset{x};
        if y != x {
          assert y in s[1..];
          var j :| 0 <= j < |s[1..]| && s[1..][j] == y;
          assert s[j + 1] == y;
        }
      }
      OrderedCons(s[0], tail, rank);
    } else {
      forall y | y in s
        ensures !Outranks(rank(y), rank(x))
      {
        var j :| 0 <= j < |s| && s[j] == y;
        if j > 0 {
          NotOutrankedTransitive(rank(y), rank(s[0]), rank(x));
        }
      }
      OrderedCons(x, s, rank);
    }
  }

  /** Insertion sort: each element is inserted in front of its equals from
      later in the input, so equal-ranked elements keep their input order. */
  function SortByRank<T>(s: seq<T>, rank: T -> Rank): (r: seq<T>)
    ensures multiset(r) == multiset(s)
    ensures Ordered(r, rank)
  {
    if s == [] then []
    else
      assert s == [s[0]] + s[1..];
      InsertKeepsOrder(s[0], SortByRank(s[1..], rank), rank);
      Insert(s[0], SortByRank(s[1..], rank), rank)
  }

  lemma {:induction false} InsertKeepsEquals<T>(x: T, s: seq<T>, rank: T -> Rank, k: Rank)
    ensures WithRank(Insert(x, s, rank), rank, k) == WithRank([x] + s, rank, k)
  {
    assert ([x] + s)[1..] == s;
    if s != [] && Outranks(rank(s[0]), rank(x)) {
      var tail := Insert(x, s[1..], rank);
      assert ([s[0]] + tail)[1..] == tail;
      InsertKeepsEquals(x, s[1..], rank, k);
      assert ([x] + s[1..])[1..] == s[1..];
      assert rank(s[0]) == k ==> rank(x) != k;
    }
  }

  /** Stability: among elements of equal rank the sorted order is the input
      order. */
  lemma {:induction false} SortIsStable<T>(s: seq<T>, rank: T -> Rank, k: Rank)
    ensures WithRank(SortByRank(s, rank), rank, k) == WithRank(s, rank, k)
  {
    if s != [] {
      var rest := SortByRank(s[1..], rank);
      InsertKeepsEquals(s[0], rest, rank, k);
      SortIsStable(s[1..], rank, k);
      assert ([s[0]] + rest)[1..] == rest;
    }
  }
}
