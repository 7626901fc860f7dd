/** First-fit grouping of waiting users: every item goes to the first group holding nobody it conflicts with. */
module FirstFit {

  /** True when no member of the group conflicts with the item. The group member is the predicate's first argument. */
  predicate Admits<T>(conflicts: (T, T) -> bool, group: seq<T>, item: T) {
    forall i :: 0 <= i < |group| ==> !conflicts(group[i], item)
  }

  /** The first group that admits the item, or the number of groups when none does. */
  function Slot<T>(conflicts: (T, T) -> bool, groups: seq<seq<T>>, item: T): (k: nat)
    ensures k <= |groups|
    ensures k < |groups| ==> Admits(conflicts, groups[k], item)
    ensures forall j :: 0 <= j < k ==> !Admits(conflicts, groups[j], item)
  {
    if groups == [] || Admits(conflicts, groups[0], item) then 0
    else 1 + Slot(conflicts, groups[1..], item)
  }

  function Put<T>(groups: seq<seq<T>>, k: nat, item: T): seq<seq<T>>
    requires k <= |groups|
  {
    if k < |groups| then groups[k := groups[k] + [item]] else groups + [[item]]
  }

  function Group<T>(conflicts: (T, T) -> bool, items: seq<T>): seq<seq<T>> {
    if items == [] then [] else
      var groups := Group(conflicts, items[..|items| - 1]);
      var item := items[|items| - 1];
      Put(groups, Slot(conflicts, groups, item), item)
  }

  /** The number of the group that each item was sent to. */
  function Labels<T>(conflicts: (T, T) -> bool, items: seq<T>): (labels: seq<nat>)
    ensures |labels| == |items|
  {
    if items == [] then [] else
      var front := items[..|items| - 1];
      Labels(conflicts, front) + [Slot(conflicts, Group(conflicts, front), items[|items| - 1])]
  }

  /** The items carrying label k, in their original order. */
  function Select<T>(items: seq<T>, labels: seq<nat>, k: nat): seq<T>
    requires |items| == |labels|
  {
    if items == [] then [] else
      var n := |items| - 1;
      Select(items[..n], labels[..n], k) + (if labels[n] == k then [items[n]] else [])
  }

  method SplitArrayByPredicate<T>(items: seq<T>, conflicts: (T, T) -> bool) returns (result: seq<seq<T>>)
    ensures result == Group(conflicts, items)
  {
    result := [];
    for n := 0 to |items|
      invariant result == Group(conflicts, items[..n])
    {
      var item := items[n];
      ghost var before := result;
      var foundGroup := false;
      var k := 0;
      while k < |result| && !foundGroup
        invariant 0 <= k <= |before|
        invariant !foundGroup ==> result == before && forall j :: 0 <= j < k ==> !Admits(conflicts, before[j], item)
        invariant foundGroup ==> result == Put(before, Slot(conflicts, before, item), item)
        decreases |before| - k, !foundGroup
      {
        var canBePut := true;
        var i := 0;
        while i < |result[k]| && canBePut
          invariant 0 <= i <= |result[k]|
          invariant canBePut ==> forall j :: 0 <= j < i ==> !conflicts(result[k][j], item)
          invariant !canBePut ==> !Admits(conflicts, result[k], item)
          decreases |result[k]| - i, canBePut
        {
          if conflicts(result[k][i], item) {
            canBePut := false;
          } else {
            i := i + 1;
          }
        }
        if canBePut {
          result := result[k := result[k] + [item]];
          foundGroup := true;
        } else {
          k := k + 1;
        }
      }
      if !foundGroup {
        result := result + [[item]];
      }
      assert items[..n + 1][..n] == items[..n];
    }
    assert items[..|items|] == items;
  }

  /** Partition with order kept: group k is exactly the items labelled k, in input order, and every label is a group. */
  lemma {:induction false} GroupsPartitionInOrder<T>(conflicts: (T, T) -> bool, items: seq<T>)
    ensures forall i :: 0 <= i < |items| ==> Labels(conflicts, items)[i] < |Group(conflicts, items)|
    ensures forall k: nat :: k < |Group(conflicts, items)| ==>
              Group(conflicts, items)[k] == Select(items, Labels(conflicts, items), k)
    ensures forall k: nat :: k >= |Group(conflicts, items)| ==> Select(items, Labels(conflicts, items), k) == []
  {
    if items != [] {
      var n := |items| - 1;
      GroupsPartitionInOrder(conflicts, items[..n]);
      assert Labels(conflicts, items)[..n] == Labels(conflicts, items[..n]);
    }
  }

  /** No two members of one group conflict. */
  lemma {:induction false} NoConflictInsideGroup<T>(conflicts: (T, T) -> bool, items: seq<T>)
    ensures forall k, i, j :: 0 <= k < |Group(conflicts, items)| && 0 <= i < j < |Group(conflicts, items)[k]| ==>
              !conflicts(Group(conflicts, items)[k][i], Group(conflicts, items)[k][j])
  {
    if items != [] {
      NoConflictInsideGroup(conflicts, items[..|items| - 1]);
    }
  }

  /** Why an item is not further left: each earlier group holds an item that stands before it and conflicts with it. */
  lemma {:induction false} EarlierGroupsConflict<T>(conflicts: (T, T) -> bool, items: seq<T>, i: nat, k: nat)
    returns (j: nat)
    requires i < |items| && k < Labels(conflicts, items)[i]
    ensures j < i && Labels(conflicts, items)[j] == k && conflicts(items[j], items[i])
  {
    var n := |items| - 1;
    var front := items[..n];
    if i < n {
      j := EarlierGroupsConflict(conflicts, front, i, k);
    } else {
      var groups := Group(conflicts, front);
      assert !Admits(conflicts, groups[k], items[i]);
      GroupsPartitionInOrder(conflicts, front);
      var m :| 0 <= m < |groups[k]| && conflicts(groups[k][m], items[i]);
      j := Origin(front, Labels(conflicts, front), k, m);
    }
  }

  /** Where the m-th item labelled k came from. */
  lemma {:induction false} Origin<T>(items: seq<T>, labels: seq<nat>, k: nat, m: nat) returns (j: nat)
    requires |items| == |labels| && m < |Select(items, labels, k)|
    ensures j < |items| && labels[j] == k && items[j] == Select(items, labels, k)[m]
  {
    var n := |items| - 1;
    if m < |Select(items[..n], labels[..n], k)| {
      j := Origin(items[..n], labels[..n], k, m);
    } else {
      j := n;
    }
  }

  ghost predicate Equivalence<T>(conflicts: (T, T) -> bool, items: seq<T>) {
    && (forall a <- items :: conflicts(a, a))
    && (forall a <- items, b <- items :: conflicts(a, b) ==> conflicts(b, a))
    && (forall a <- items, b <- items, c <- items :: conflicts(a, b) && conflicts(b, c) ==> conflicts(a, c))
  }

  /** How many items conflict with x: the size of x's class when the predicate is an equivalence. */
  function ClassSize<T>(conflicts: (T, T) -> bool, items: seq<T>, x: T): nat {
    if items == [] then 0 else
      var n := |items| - 1;
      ClassSize(conflicts, items[..n], x) + if conflicts(items[n], x) then 1 else 0
  }

  /** Any labelling that keeps conflicting items apart. */
  ghost predicate Proper<T>(conflicts: (T, T) -> bool, items: seq<T>, labels: seq<nat>) {
    |labels| == |items| &&
    forall i, j :: 0 <= i < j < |items| && conflicts(items[i], items[j]) ==> labels[i] != labels[j]
  }

  /** The labels used by the class of x. */
  ghost function ClassLabels<T>(conflicts: (T, T) -> bool, items: seq<T>, labels: seq<nat>, x: T): set<nat>
    requires |labels| == |items|
  {
    set i | 0 <= i < |items| && conflicts(items[i], x) :: labels[i]
  }

  /** A class needs as many labels as it has members, under any labelling that keeps conflicts apart. */
  lemma {:induction false} ClassNeedsDistinctLabels<T>(conflicts: (T, T) -> bool, items: seq<T>, labels: seq<nat>, x: T)
    requires Proper(conflicts, items, labels)
    requires forall a <- items, b <- items :: conflicts(a, x) && conflicts(b, x) ==> conflicts(a, b)
    ensures |ClassLabels(conflicts, items, labels, x)| == ClassSize(conflicts, items, x)
  {
    hide ClassLabels;
    if items == [] {
      assert ClassLabels(conflicts, items, labels, x) == {} by { NoLabels(conflicts, x); }
    } else {
      var n := |items| - 1;
      ClassNeedsDistinctLabels(conflicts, items[..n], labels[..n], x);
      OneMoreLabel(conflicts, items, labels, x);
    }
  }

  lemma NoLabels<T>(conflicts: (T, T) -> bool, x: T)
    ensures ClassLabels(conflicts, [], [], x) == {}
  {
  }

  lemma OneMoreLabel<T>(conflicts: (T, T) -> bool, items: seq<T>, labels: seq<nat>, x: T)
    requires items != [] && Proper(conflicts, items, labels)
    requires forall a <- items, b <- items :: conflicts(a, x) && conflicts(b, x) ==> conflicts(a, b)
    ensures var n := |items| - 1;
            var rest := ClassLabels(conflicts, items[..n], labels[..n], x);
            if conflicts(items[n], x) then
              ClassLabels(conflicts, items, labels, x) == rest + {labels[n]} && labels[n] !in rest
            else ClassLabels(conflicts, items, labels, x) == rest
  {
    var n := |items| - 1;
    var rest, all := ClassLabels(conflicts, items[..n], labels[..n], x), ClassLabels(conflicts, items, labels, x);
    assert forall i :: 0 <= i < n ==> items[..n][i] == items[i] && labels[..n][i] == labels[i];
    forall l <- rest
      ensures l in all && (conflicts(items[n], x) ==> l != labels[n])
    {
      var i :| 0 <= i < n && conflicts(items[..n][i], x) && labels[..n][i] == l;
      assert conflicts(items[i], x) && items[i] in items && items[n] in items;
    }
    forall l <- all
      ensures l in rest || (conflicts(items[n], x) && l == labels[n])
    {
      var i :| 0 <= i < |items| && conflicts(items[i], x) && labels[i] == l;
      assert i < n ==> conflicts(items[..n][i], x) && labels[..n][i] == l;
    }
  }

  lemma {:induction false} SubsetSize(small: set<nat>, m: nat)
    requires forall k <- small :: k < m
    ensures |small| <= m
  {
    if m == 0 {
      assert small == {};
    } else {
      SubsetSize(small - {m - 1}, m - 1);
    }
  }

  lemma {:induction false} RangeSize(big: set<nat>, m: nat)
    requires forall k: nat :: k < m ==> k in big
    ensures m <= |big|
  {
    if m > 0 {
      RangeSize(big - {m - 1}, m - 1);
    }
  }

  lemma FirstFitIsProper<T>(conflicts: (T, T) -> bool, items: seq<T>)
    ensures Proper(conflicts, items, Labels(conflicts, items))
    decreases |items|
  {
    if items != [] {
      var n := |items| - 1;
      var front := items[..n];
      FirstFitIsProper(conflicts, front);
      var labels := Labels(conflicts, items);
      forall i | 0 <= i < n && conflicts(items[i], items[n])
        ensures labels[i] != labels[n]
      {
        GroupsPartitionInOrder(conflicts, front);
        var groups := Group(conflicts, front);
        var m := IndexInSelect(front, Labels(conflicts, front), i);
        assert !Admits(conflicts, groups[labels[i]], items[n]) by {
          assert conflicts(groups[labels[i]][m], items[n]);
        }
      }
    }
  }

  lemma {:induction false} IndexInSelect<T>(items: seq<T>, labels: seq<nat>, i: nat) returns (m: nat)
    requires |items| == |labels| && i < |items|
    ensures m < |Select(items, labels, labels[i])| && Select(items, labels, labels[i])[m] == items[i]
  {
    var n := |items| - 1;
    if i == n {
      m := |Select(items[..n], labels[..n], labels[n])|;
    } else {
      m := IndexInSelect(items[..n], labels[..n], i);
    }
  }

  /** Under an equivalence the number of groups is the size of the largest class. */
  lemma GroupCountIsLargestClass<T>(conflicts: (T, T) -> bool, items: seq<T>)
    requires Equivalence(conflicts, items)
    ensures forall x <- items :: ClassSize(conflicts, items, x) <= |Group(conflicts, items)|
    ensures items != [] ==> exists x <- items :: ClassSize(conflicts, items, x) == |Group(conflicts, items)|
    ensures items == [] ==> Group(conflicts, items) == []
  {
    var labels := Labels(conflicts, items);
    var m := |Group(conflicts, items)|;
    GroupsPartitionInOrder(conflicts, items);
    FirstFitIsProper(conflicts, items);
    forall x <- items
      ensures ClassSize(conflicts, items, x) <= m
    {
      ClassNeedsDistinctLabels(conflicts, items, labels, x);
      SubsetSize(ClassLabels(conflicts, items, labels, x), m);
    }
    if items != [] {
      LastGroupNotEmpty(conflicts, items);
      var last := Origin(items, labels, m - 1, 0);
      var x := items[last];
      var used := ClassLabels(conflicts, items, labels, x);
      forall k: nat | k < m
        ensures k in used
      {
        if k == m - 1 {
          assert conflicts(items[last], x);
        } else {
          var j := EarlierGroupsConflict(conflicts, items, last, k);
        }
      }
      RangeSize(used, m);
      ClassNeedsDistinctLabels(conflicts, items, labels, x);
      assert x in items;
    }
  }

  lemma {:induction false} LastGroupNotEmpty<T>(conflicts: (T, T) -> bool, items: seq<T>)
    ensures items != [] ==> |Group(conflicts, items)| > 0
    ensures forall k :: 0 <= k < |Group(conflicts, items)| ==> Group(conflicts, items)[k] != []
  {
    if items != [] {
      LastGroupNotEmpty(conflicts, items[..|items| - 1]);
    }
  }

  /** Optimality: no labelling that keeps conflicting items apart uses fewer labels than first fit makes groups. */
  lemma FirstFitUsesFewestGroups<T>(conflicts: (T, T) -> bool, items: seq<T>, labels: seq<nat>, m: nat)
    requires Equivalence(conflicts, items)
    requires Proper(conflicts, items, labels)
    requires forall i :: 0 <= i < |labels| ==> labels[i] < m
    ensures |Group(conflicts, items)| <= m
  {
    GroupCountIsLargestClass(conflicts, items);
    if items != [] {
      var x :| x in items && ClassSize(conflicts, items, x) == |Group(conflicts, items)|;
      ClassNeedsDistinctLabels(conflicts, items, labels, x);
      SubsetSize(ClassLabels(conflicts, items, labels, x), m);
    }
  }
}
