/** A stable sort by an integer key, as Array.prototype.sort with a difference of keys. */
module Sorting {

  ghost predicate Ascending<T>(key: T -> int, s: seq<T>) {
    forall i, j :: 0 <= i < j < |s| ==> key(s[i]) <= key(s[j])
  }

  /** Insertion into an ascending list: equal keys keep their order. */
  function Insert<T>(key: T -> int, x: T, s: seq<T>): seq<T> {
    if s == [] then [x]
    else if key(s[|s| - 1]) <= key(x) then s + [x]
    else Insert(key, x, s[..|s| - 1]) + [s[|s| - 1]]
  }

  function SortBy<T>(key: T -> int, s: seq<T>): seq<T> {
    if s == [] then [] else Insert(key, s[|s| - 1], SortBy(key, s[..|s| - 1]))
  }

  lemma {:induction false} InsertPermutes<T>(key: T -> int, x: T, s: seq<T>)
    ensures multiset(Insert(key, x, s)) == multiset(s) + multiset{x}
    ensures |Insert(key, x, s)| == |s| + 1
  {
    if s != [] {
      var n := |s| - 1;
      assert s == s[..n] + [s[n]];
      InsertPermutes(key, x, s[..n]);
    }
  }

  lemma {:induction false} InsertKeepsOrder<T>(key: T -> int, x: T, s: seq<T>, bound: int)
    requires Ascending(key, s)
    requires key(x) <= bound && forall i :: 0 <= i < |s| ==> key(s[i]) <= bound
    ensures Ascending(key, Insert(key, x, s))
    ensures forall i :: 0 <= i < |Insert(key, x, s)| ==> key(Insert(key, x, s)[i]) <= bound
  {
    if s != [] {
      var n := |s| - 1;
      if key(x) < key(s[n]) {
        InsertKeepsOrder(key, x, s[..n], key(s[n]));
      }
    }
  }

  /** The greatest key, or the given one. */
  function MaxKey<T>(key: T -> int, s: seq<T>, least: int): (m: int)
    ensures m >= least && forall i :: 0 <= i < |s| ==> key(s[i]) <= m
  {
    if s == [] then least else
      var m := MaxKey(key, s[..|s| - 1], least);
      if key(s[|s| - 1]) > m then key(s[|s| - 1]) else m
  }

  /** The sort permutes and sorts. */
  lemma {:induction false} SortSorts<T>(key: T -> int, s: seq<T>)
    ensures Ascending(key, SortBy(key, s))
    ensures multiset(SortBy(key, s)) == multiset(s)
    ensures |SortBy(key, s)| == |s|
  {
    if s != [] {
      var n := |s| - 1;
      assert s == s[..n] + [s[n]];
      SortSorts(key, s[..n]);
      var front := SortBy(key, s[..n]);
      InsertPermutes(key, s[n], front);
      InsertKeepsOrder(key, s[n], front, MaxKey(key, front, key(s[n])));
    }
  }
}
