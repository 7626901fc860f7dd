/** Searching a list, lists without repetition, and how long they are. */
module Sequences {

  ghost predicate NoRepeats<T>(s: seq<T>) {
    forall i, j :: 0 <= i < j < |s| ==> s[i] != s[j]
  }

  /** The first position whose element meets the condition, or the length of the list. */
  function IndexWhere<T>(s: seq<T>, condition: T -> bool): (i: nat)
    ensures i <= |s| && (i < |s| ==> condition(s[i]))
    ensures forall j :: 0 <= j < i ==> !condition(s[j])
  {
    if s == [] || condition(s[0]) then 0
    else
      assert forall j :: 0 < j < |s| ==> s[1..][j - 1] == s[j];
      1 + IndexWhere(s[1..], condition)
  }

  lemma {:induction false} SetOf<T>(s: seq<T>) returns (elements: set<T>)
    ensures elements == set x | x in s
    ensures NoRepeats(s) ==> |elements| == |s|
  {
    if s == [] {
      elements := {};
    } else {
      var n := |s| - 1;
      var front := SetOf(s[..n]);
      elements := front + {s[n]};
      assert NoRepeats(s) ==> s[n] !in s[..n];
    }
  }

  /** Lists without repetition and with the same elements are equally long. */
  lemma SameElementsSameLength<T>(a: seq<T>, b: seq<T>)
    requires NoRepeats(a) && NoRepeats(b)
    requires forall x :: x in a <==> x in b
    ensures |a| == |b|
  {
    var x := SetOf(a);
    var y := SetOf(b);
    assert x == y;
  }

  lemma NoRepeatsPermutes<T>(a: seq<T>, b: seq<T>)
    requires NoRepeats(a) && multiset(a) == multiset(b)
    ensures NoRepeats(b)
    ensures forall x :: x in a <==> x in b
  {
    OnceEach(a);
    OnceEach(b);
    forall x
      ensures x in a <==> x in b
    {
      assert x in a <==> x in multiset(a);
      assert x in b <==> x in multiset(b);
    }
  }

  lemma {:induction false} OnceEach<T>(s: seq<T>)
    ensures NoRepeats(s) <==> forall x <- multiset(s) :: multiset(s)[x] == 1
  {
    if s != [] {
      var n := |s| - 1;
      var front := s[..n];
      OnceEach(front);
      assert s == front + [s[n]];
      assert s[n] in multiset(front) <==> s[n] in front;
      if NoRepeats(s) {
        assert s[n] !in front;
      } else if forall x <- multiset(s) :: multiset(s)[x] == 1 {
        assert multiset(s)[s[n]] == 1;
        assert forall x <- multiset(front) :: multiset(s)[x] == 1;
      }
    }
  }

  lemma {:induction false} SubsetSize<T>(a: set<T>, b: set<T>)
    requires a <= b
    ensures |a| <= |b|
  {
    if a != {} {
      var x :| x in a;
      SubsetSize(a - {x}, b - {x});
    }
  }

  /** Splicing one element out of a list without repetition. */
  lemma SpliceOne<T>(s: seq<T>, k: nat)
    requires NoRepeats(s) && k < |s|
    ensures NoRepeats(s[..k] + s[k + 1..])
    ensures forall x :: x in s[..k] + s[k + 1..] <==> x in s && x != s[k]
  {
    var rest := s[..k] + s[k + 1..];
    assert forall i :: 0 <= i < |rest| ==> rest[i] == s[if i < k then i else i + 1];
    forall x | x in s && x != s[k]
      ensures x in rest
    {
      var i :| 0 <= i < |s| && s[i] == x;
      assert rest[if i < k then i else i - 1] == x;
    }
  }

  lemma JoinOnce<T>(a: seq<T>, b: seq<T>)
    requires NoRepeats(a) && NoRepeats(b) && forall x <- b :: x !in a
    ensures NoRepeats(a + b)
  {
    assert forall i :: 0 <= i < |a| ==> a[i] in a;
    assert forall j :: 0 <= j < |b| ==> b[j] in b;
  }
}
