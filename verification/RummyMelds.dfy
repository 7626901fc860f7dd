/** The meld deciders of 13-card rummy: pure sequence, impure sequence with jokers and wild cards, set. */
module RummyMelds {
  import Sorting
  import opened Sequences

  datatype Suit = H | S | D | C

  /** What a card shows. Ranks are 2..14, the ace being 14; the two jokers are the spade and the diamond of rank 0. */
  datatype Face = Face(suit: Suit, rank: int)

  /** The same face occurs in several decks. */
  datatype Card = Card(deck: nat, face: Face)

  predicate IsJoker(f: Face) {
    f == Face(S, 0) || f == Face(D, 0)
  }

  predicate Printed(f: Face) {
    2 <= f.rank <= 14 || IsJoker(f)
  }

  ghost predicate AllPrinted(faces: seq<Face>) {
    forall i :: 0 <= i < |faces| ==> Printed(faces[i])
  }

  function Faces(cards: seq<Card>): (faces: seq<Face>)
    ensures |faces| == |cards| && forall i {:trigger faces[i]} :: 0 <= i < |faces| ==> faces[i] == cards[i].face
  {
    seq(|cards|, i requires 0 <= i < |cards| => cards[i].face)
  }

  function RankOf(f: Face): int { f.rank }

  function SortCardsByNumber(faces: seq<Face>): seq<Face> {
    Sorting.SortBy(RankOf, faces)
  }

  ghost predicate Sorted(faces: seq<Face>) {
    forall i, j :: 0 <= i < j < |faces| ==> faces[i].rank <= faces[j].rank
  }

  lemma SortSorts(faces: seq<Face>) returns (sorted: seq<Face>)
    ensures sorted == SortCardsByNumber(faces)
    ensures Sorted(sorted) && multiset(sorted) == multiset(faces) && |sorted| == |faces|
    ensures forall f <- sorted :: f in faces
  {
    sorted := SortCardsByNumber(faces);
    Sorting.SortSorts(RankOf, faces);
    forall i, j | 0 <= i < j < |sorted|
      ensures sorted[i].rank <= sorted[j].rank
    {
      assert RankOf(sorted[i]) <= RankOf(sorted[j]);
    }
    forall f <- sorted
      ensures f in faces
    {
      assert f in multiset(faces);
    }
  }

  // ---------- what a sequence is ----------

  /** The places a face may take in a row: its rank, and 1 for an ace. */
  predicate MayStandAt(f: Face, position: int) {
    position == f.rank || (f.rank == 14 && position == 1)
  }

  /** One suit at increasing positions of a window of `size` positions inside 1..14. */
  ghost predicate Row(faces: seq<Face>, at: seq<int>, suit: Suit, lo: int, size: nat) {
    && |at| == |faces| && 1 <= lo && lo + size - 1 <= 14
    && (forall i :: 0 <= i < |faces| ==>
      lo <= at[i] < lo + size && MayStandAt(faces[i], at[i]) && faces[i].suit == suit)
    && (forall i, j :: 0 <= i < j < |faces| ==> at[i] < at[j])
  }

  /** The faces can be laid out in such a window. */
  ghost predicate FitsWindow(faces: seq<Face>, size: nat) {
    exists row: seq<Face>, at: seq<int>, suit: Suit, lo: int ::
      multiset(row) == multiset(faces) && Row(row, at, suit, lo, size)
  }

  /** Every position of the window is taken by a card of its own. */
  ghost predicate IsPureSequence(faces: seq<Face>) {
    FitsWindow(faces, |faces|)
  }

  /** Jokers and wild cards fill the positions the other cards leave free. */
  ghost predicate IsImpureSequence(faces: seq<Face>, wild: Face) {
    FitsWindow(Normals(faces, wild), |faces|)
  }

  predicate IsFiller(f: Face, wild: Face) {
    IsJoker(f) || f.rank == wild.rank
  }

  function Normals(faces: seq<Face>, wild: Face): seq<Face> {
    if faces == [] then [] else
      var last := faces[|faces| - 1];
      Normals(faces[..|faces| - 1], wild) + if IsFiller(last, wild) then [] else [last]
  }

  /** How often a card is put on the list of jokers and wild cards: twice when it is both. */
  function FillerCount(faces: seq<Face>, wild: Face): nat {
    if faces == [] then 0 else
      var last := faces[|faces| - 1];
      FillerCount(faces[..|faces| - 1], wild)
      + (if IsJoker(last) then 1 else 0) + if last.rank == wild.rank then 1 else 0
  }

  lemma {:induction false} FillersAndNormals(faces: seq<Face>, wild: Face)
    requires AllPrinted(faces)
    ensures wild.rank != 0 ==> FillerCount(faces, wild) + |Normals(faces, wild)| == |faces|
    ensures forall f <- Normals(faces, wild) :: 2 <= f.rank <= 14 && f.rank != wild.rank
  {
    if faces != [] {
      FillersAndNormals(faces[..|faces| - 1], wild);
    }
  }

  // ---------- gaps in a sorted row ----------

  /** Suits agree and ranks rise by at least one from position k on. */
  ghost predicate RisesFrom(faces: seq<Face>, k: int, suit: Suit) {
    forall i :: 0 < i && k <= i < |faces| ==> faces[i].suit == suit && faces[i].rank - faces[i - 1].rank >= 1
  }

  ghost predicate Rises(faces: seq<Face>) {
    faces != [] && RisesFrom(faces, 1, faces[0].suit)
  }

  /** Positions missing between the first and the last face. */
  function Needed(faces: seq<Face>): int
    requires faces != []
  {
    faces[|faces| - 1].rank - faces[0].rank + 1 - |faces|
  }

  /** The row with its last card, an ace, put in front as a 1. */
  function AceLow(faces: seq<Face>): (r: seq<Face>)
    requires faces != []
    ensures |r| == |faces| && r[0] == faces[|faces| - 1].(rank := 1)
    ensures forall i :: 0 < i < |faces| ==> r[i] == faces[i - 1]
  {
    [faces[|faces| - 1].(rank := 1)] + faces[..|faces| - 1]
  }

  /** A sorted row that leaves at most `fillers` positions free, with the ace high or low. */
  ghost predicate Bridged(sorted: seq<Face>, fillers: int)
    requires sorted != []
  {
    || (Rises(sorted) && Needed(sorted) <= fillers)
    || (sorted[|sorted| - 1].rank == 14 && Rises(AceLow(sorted)) && Needed(AceLow(sorted)) <= fillers)
  }

  lemma {:induction false} RisesApart(faces: seq<Face>, i: nat, j: nat)
    requires Rises(faces) && i <= j < |faces|
    ensures faces[j].rank - faces[i].rank >= j - i
    ensures faces[j].suit == faces[0].suit
  {
    if i < j {
      RisesApart(faces, i, j - 1);
    }
  }

  // ---------- bridged rows fit a window ----------

  function Ranks(faces: seq<Face>): (r: seq<int>)
    ensures |r| == |faces| && forall i {:trigger r[i]} :: 0 <= i < |r| ==> r[i] == faces[i].rank
  {
    seq(|faces|, i requires 0 <= i < |faces| => faces[i].rank)
  }

  function Min(a: int, b: int): int { if a < b then a else b }

  lemma BridgedFits(sorted: seq<Face>, size: nat)
    requires sorted != [] && |sorted| <= size <= 14
    requires forall i :: 0 <= i < |sorted| ==> 2 <= sorted[i].rank <= 14
    requires Bridged(sorted, size - |sorted|)
    ensures FitsWindow(sorted, size)
  {
    var n := |sorted|;
    if Rises(sorted) && Needed(sorted) <= size - n {
      RowOfRanks(sorted, sorted, size);
    } else {
      var low := AceLow(sorted);
      var row := [sorted[n - 1]] + sorted[..n - 1];
      assert sorted == sorted[..n - 1] + [sorted[n - 1]];
      assert multiset(row) == multiset(sorted);
      RowOfRanks(low, row, size);
    }
  }

  lemma RowOfRanks(places: seq<Face>, row: seq<Face>, size: nat)
    requires places != [] && Rises(places) && Needed(places) + |places| <= size <= 14
    requires |row| == |places|
    requires forall i :: 0 <= i < |row| ==> row[i].suit == places[i].suit && MayStandAt(row[i], places[i].rank)
    requires 1 <= places[0].rank && places[|places| - 1].rank <= 14
    ensures exists lo :: Row(row, Ranks(places), places[0].suit, lo, size)
  {
    var lo := Min(places[0].rank, 15 - size);
    forall i, j | 0 <= i < j < |places|
      ensures places[i].rank < places[j].rank
    {
      RisesApart(places, i, j);
    }
    forall i | 0 <= i < |places|
      ensures places[0].rank <= places[i].rank <= places[|places| - 1].rank && places[i].suit == places[0].suit
    {
      RisesApart(places, 0, i);
      RisesApart(places, i, |places| - 1);
    }
    assert Row(row, Ranks(places), places[0].suit, lo, size);
  }

  // ---------- rows that fit a window are bridged ----------

  /** Sorted lists of one suit with the same cards are equal. */
  lemma {:induction false} SortedIsUnique(a: seq<Face>, b: seq<Face>, suit: Suit)
    requires Sorted(a) && Sorted(b) && multiset(a) == multiset(b)
    requires forall f <- a :: f.suit == suit
    ensures a == b
  {
    SameCount(a, b);
    if a != [] {
      var m := |a| - 1;
      SameLast(a, b, suit);
      DropLast(a, b);
      assert forall f <- a[..m] :: f in a;
      SortedIsUnique(a[..m], b[..m], suit);
      JoinLast(a, b);
    }
  }

  lemma SameCount<T>(a: seq<T>, b: seq<T>)
    requires multiset(a) == multiset(b)
    ensures |a| == |b|
  {
    assert |multiset(a)| == |multiset(b)|;
  }

  lemma JoinLast<T>(a: seq<T>, b: seq<T>)
    requires |a| == |b| && a != [] && a[..|a| - 1] == b[..|b| - 1] && a[|a| - 1] == b[|b| - 1]
    ensures a == b
  {
    assert a == a[..|a| - 1] + [a[|a| - 1]];
  }

  lemma DropLast<T>(a: seq<T>, b: seq<T>)
    requires a != [] && |a| == |b| && multiset(a) == multiset(b) && a[|a| - 1] == b[|b| - 1]
    ensures multiset(a[..|a| - 1]) == multiset(b[..|b| - 1])
  {
    var m := |a| - 1;
    forall x: T
      ensures multiset(a[..m])[x] == multiset(b[..m])[x]
    {
      LastCounts(a, x);
      LastCounts(b, x);
    }
  }

  lemma LastCounts<T>(s: seq<T>, x: T)
    requires s != []
    ensures multiset(s)[x] == multiset(s[..|s| - 1])[x] + if s[|s| - 1] == x then 1 else 0
  {
    assert s == s[..|s| - 1] + [s[|s| - 1]];
  }

  lemma SameLast(a: seq<Face>, b: seq<Face>, suit: Suit)
    requires a != [] && b != [] && Sorted(a) && Sorted(b) && multiset(a) == multiset(b)
    requires forall f <- a :: f.suit == suit
    ensures a[|a| - 1] == b[|b| - 1]
  {
    var x, y := a[|a| - 1], b[|b| - 1];
    assert y in multiset(a) && x in multiset(b);
    var i :| 0 <= i < |a| && a[i] == y;
    var j :| 0 <= j < |b| && b[j] == x;
  }

  /** Only the first card of a row can be a low ace. */
  lemma RowPlaces(row: seq<Face>, at: seq<int>, suit: Suit, lo: int, size: nat)
    requires Row(row, at, suit, lo, size) && row != []
    ensures forall i :: 0 < i < |row| ==> at[i] == row[i].rank && 2 <= at[i] <= 14
    ensures at[0] == row[0].rank || (at[0] == lo == 1 && row[0].rank == 14)
  {
    forall i | 0 < i < |row|
      ensures at[i] == row[i].rank && 2 <= at[i] <= 14
    {
      assert at[0] < at[i];
    }
  }

  lemma FitsBridged(faces: seq<Face>, size: nat) returns (sorted: seq<Face>)
    requires faces != [] && FitsWindow(faces, size)
    ensures sorted == SortCardsByNumber(faces) && |sorted| == |faces|
    ensures Bridged(sorted, size - |sorted|)
    ensures size < 14 ==> Rises(sorted)
  {
    sorted := SortSorts(faces);
    var row: seq<Face>, at: seq<int>, suit: Suit, lo: int :|
      multiset(row) == multiset(faces) && Row(row, at, suit, lo, size);
    assert |row| == |faces| by { assert |multiset(row)| == |multiset(faces)|; }
    hide Row, Bridged, Rises, Sorted, SortCardsByNumber;
    RowPlaces(row, at, suit, lo, size);
    if at[0] == row[0].rank {
      HighRow(row, at, suit, lo, size);
      SortedIsUnique(row, sorted, suit);
    } else {
      LowAceLast(row, at, suit, sorted, size);
    }
  }

  lemma HighRow(row: seq<Face>, at: seq<int>, suit: Suit, lo: int, size: nat)
    requires row != [] && Row(row, at, suit, lo, size) && at[0] == row[0].rank
    ensures Sorted(row) && Rises(row) && Bridged(row, size - |row|)
    ensures forall f <- row :: f.suit == suit
  {
    RowPlaces(row, at, suit, lo, size);
    assert forall i :: 0 <= i < |row| ==> row[i].rank == at[i];
  }

  lemma LowAceLast(row: seq<Face>, at: seq<int>, suit: Suit, sorted: seq<Face>, size: nat)
    requires row != [] && Row(row, at, suit, 1, size) && at[0] == 1 && row[0].rank == 14
    requires Sorted(sorted) && multiset(row) == multiset(sorted) && |sorted| == |row|
    ensures Bridged(sorted, size - |sorted|)
    ensures size < 14 ==> Rises(sorted)
  {
    hide Row, Bridged, Rises;
    RowPlaces(row, at, suit, 1, size);
    var high := row[1..] + [row[0]];
    AceGoesLast(row, at, suit, high, size);
    assert row == [row[0]] + row[1..];
    assert multiset(high) == multiset(row);
    SortedIsUnique(high, sorted, suit);
  }

  lemma AceGoesLast(row: seq<Face>, at: seq<int>, suit: Suit, high: seq<Face>, size: nat)
    requires row != [] && Row(row, at, suit, 1, size) && at[0] == 1 && row[0].rank == 14
    requires high == row[1..] + [row[0]]
    ensures Sorted(high) && (forall f <- high :: f.suit == suit)
    ensures Bridged(high, size - |high|)
    ensures size < 14 ==> Rises(high)
  {
    var n := |row|;
    RowPlaces(row, at, suit, 1, size);
    assert forall i :: 0 <= i < n - 1 ==> high[i] == row[i + 1];
    RanksOfHigh(row, at, suit, high, size);
    LowRises(row, at, AceLow(high));
  }

  lemma RanksOfHigh(row: seq<Face>, at: seq<int>, suit: Suit, high: seq<Face>, size: nat)
    requires row != [] && Row(row, at, suit, 1, size) && at[0] == 1 && row[0].rank == 14
    requires |high| == |row| && high[|row| - 1] == row[0] && forall i :: 0 <= i < |row| - 1 ==> high[i] == row[i + 1]
    ensures Sorted(high) && (forall i :: 0 <= i < |high| ==> high[i].suit == suit)
    ensures size < 14 ==> Rises(high)
  {
    RowPlaces(row, at, suit, 1, size);
    assert forall i :: 0 <= i < |row| - 1 ==> high[i].rank == at[i + 1] <= 14;
  }

  lemma LowRises(row: seq<Face>, at: seq<int>, low: seq<Face>)
    requires row != [] && |at| == |row| == |low| && forall i, j :: 0 <= i < j < |row| ==> at[i] < at[j]
    requires low[0].rank == at[0] && forall i :: 0 < i < |row| ==> low[i] == row[i] && row[i].rank == at[i]
    requires low[0].suit == row[0].suit && forall i :: 0 < i < |row| ==> row[i].suit == row[0].suit
    ensures Rises(low) && Needed(low) == at[|row| - 1] - at[0] + 1 - |row|
  {
    assert forall i :: 0 <= i < |row| ==> low[i].rank == at[i];
  }

  // ---------- the deciders ----------

  /** What checkImpureSequence answers: the low ace is tried only when all ranks differ with the ace high. */
  ghost predicate ImpureVerdict(faces: seq<Face>, wild: Face) {
    var sorted := SortCardsByNumber(Normals(faces, wild));
    |Normals(faces, wild)| <= 1 || (Rises(sorted) && Bridged(sorted, FillerCount(faces, wild)))
  }

  /** What checkPureSequence answers. */
  ghost predicate PureVerdict(faces: seq<Face>) {
    var sorted := SortCardsByNumber(faces);
    sorted != [] && Bridged(sorted, 0)
  }

  ghost predicate TwoAces(faces: seq<Face>) {
    exists s: Suit, t: Suit :: multiset{Face(s, 14), Face(t, 14)} <= multiset(faces)
  }

  lemma WithoutOneCounts(faces: seq<Face>, i: nat, f: Face)
    requires i < |faces|
    ensures multiset(faces[..i] + faces[i + 1..])[f] == multiset(faces)[f] - if faces[i] == f then 1 else 0
  {
    assert faces == faces[..i] + [faces[i]] + faces[i + 1..];
  }

  lemma WithOneMoreCounts(faces: seq<Face>, last: Face, f: Face)
    ensures multiset(faces + [last])[f] == multiset(faces)[f] + if last == f then 1 else 0
  {
  }

  lemma TwoOf(faces: seq<Face>, a: Face, b: Face) returns (i: nat, j: nat)
    requires multiset{a, b} <= multiset(faces)
    ensures i < |faces| && j < |faces| && i != j && faces[i] == a && faces[j] == b
  {
    assert multiset(faces)[a] >= multiset{a, b}[a] >= 1 && a in faces;
    i :| i < |faces| && faces[i] == a;
    var rest := faces[..i] + faces[i + 1..];
    WithoutOneCounts(faces, i, b);
    assert multiset(faces)[b] >= multiset{a, b}[b] >= if a == b then 2 else 1;
    assert b in multiset(rest);
    var k: nat :| k < |rest| && rest[k] == b;
    j := if k < i then k else k + 1;
  }

  lemma PairOf(faces: seq<Face>, i: nat, j: nat)
    requires i < j < |faces|
    ensures multiset{faces[i], faces[j]} <= multiset(faces)
  {
    assert faces == faces[..i] + [faces[i]] + faces[i + 1..j] + [faces[j]] + faces[j + 1..];
  }

  lemma PrintedRise(sorted: seq<Face>)
    requires sorted != [] && forall i :: 0 <= i < |sorted| ==> 2 <= sorted[i].rank <= 14
    ensures Rises(sorted) ==> |sorted| <= 13
    ensures Rises(AceLow(sorted)) ==> |sorted| <= 14
    ensures Bridged(sorted, 0) ==> |sorted| <= 14
  {
    var n := |sorted|;
    if Rises(sorted) {
      RisesApart(sorted, 0, n - 1);
    }
    if Rises(AceLow(sorted)) {
      RisesApart(AceLow(sorted), 0, n - 1);
    }
  }

  /** A joker never stands in a bridged row of at least two cards without gaps. */
  lemma BridgedHasNoJoker(sorted: seq<Face>)
    requires |sorted| >= 2 && Sorted(sorted) && Bridged(sorted, 0)
    requires forall i :: 0 <= i < |sorted| ==> Printed(sorted[i])
    ensures forall i :: 0 <= i < |sorted| ==> 2 <= sorted[i].rank <= 14
  {
    if Rises(sorted) && Needed(sorted) <= 0 {
      RisesApart(sorted, 1, |sorted| - 1);
    } else {
      RisesApart(AceLow(sorted), 1, |sorted| - 1);
    }
  }

  /** The pure sequence check is exact: one suit, consecutive positions, ace at 1 or 14, never a joker. */
  lemma PureExact(faces: seq<Face>)
    requires |faces| >= 2 && AllPrinted(faces)
    ensures PureVerdict(faces) <==> IsPureSequence(faces)
  {
    var sorted := SortSorts(faces);
    assert forall i :: 0 <= i < |sorted| ==> sorted[i] in faces;
    if PureVerdict(faces) {
      BridgedHasNoJoker(sorted);
      PrintedRise(sorted);
      BridgedFits(sorted, |faces|);
    }
    if IsPureSequence(faces) {
      var _ := FitsBridged(faces, |faces|);
    }
  }

  /**
   * The impure sequence check for hands of up to 14 cards and a wild card that is no joker: exact
   * unless two aces are to stand at both ends of the row, which it never accepts.
   */
  lemma ImpureExactUnlessTwoAces(faces: seq<Face>, wild: Face)
    requires 1 <= |faces| <= 14 && AllPrinted(faces) && wild.rank != 0
    ensures ImpureVerdict(faces, wild) <==> IsImpureSequence(faces, wild) && !TwoAces(Normals(faces, wild))
    ensures |faces| <= 13 ==> (ImpureVerdict(faces, wild) <==> IsImpureSequence(faces, wild))
  {
    var normals := Normals(faces, wild);
    FillersAndNormals(faces, wild);
    if normals == [] {
      assert Row([], [], H, 1, |faces|);
    } else {
      NormalsExact(normals, |faces|);
    }
  }

  lemma NormalsExact(normals: seq<Face>, n: nat)
    requires 1 <= |normals| <= n <= 14 && forall f <- normals :: 2 <= f.rank <= 14
    ensures var sorted := SortCardsByNumber(normals);
            var verdict := |normals| <= 1 || (Rises(sorted) && Bridged(sorted, n - |normals|));
            && (verdict <==> FitsWindow(normals, n) && !TwoAces(normals))
            && (n <= 13 && FitsWindow(normals, n) ==> verdict)
  {
    hide Bridged, FitsWindow, Rises, TwoAces, Sorted, SortCardsByNumber, AceLow;
    var sorted := SortSorts(normals);
    if |normals| <= 1 || (Rises(sorted) && Bridged(sorted, n - |sorted|)) {
      OneCardIsBridged(sorted, n);
      BridgedFits(sorted, n);
      SameWindow(sorted, normals, n);
    }
    if FitsWindow(normals, n) {
      var _ := FitsBridged(normals, n);
      BridgedRises(sorted, n - |sorted|);
    }
    RisesIffNoTwoAces(normals, sorted);
  }

  lemma OneCardIsBridged(sorted: seq<Face>, n: nat)
    requires 1 <= |sorted| <= n
    ensures |sorted| == 1 ==> Rises(sorted) && Bridged(sorted, n - |sorted|)
  {
  }

  lemma SameWindow(a: seq<Face>, b: seq<Face>, size: nat)
    requires multiset(a) == multiset(b) && FitsWindow(a, size)
    ensures FitsWindow(b, size)
  {
  }

  lemma BridgedRises(sorted: seq<Face>, fillers: int)
    requires sorted != [] && Bridged(sorted, fillers)
    ensures Rises(sorted) || (sorted[|sorted| - 1].rank == 14 && Rises(AceLow(sorted)))
  {
  }

  /** Rows that rise with the ace low rise with the ace high too unless they hold two aces. */
  lemma RisesIffNoTwoAces(faces: seq<Face>, sorted: seq<Face>)
    requires faces != [] && multiset(sorted) == multiset(faces) && |sorted| == |faces| && Sorted(sorted)
    requires forall f <- sorted :: 2 <= f.rank <= 14
    ensures Rises(sorted) ==> !TwoAces(faces)
    ensures Rises(AceLow(sorted)) && sorted[|sorted| - 1].rank == 14 && !TwoAces(faces) ==> Rises(sorted)
  {
    var n := |sorted|;
    assert TwoAces(faces) == TwoAces(sorted);
    if TwoAces(sorted) && Rises(sorted) {
      var s: Suit, t: Suit :| multiset{Face(s, 14), Face(t, 14)} <= multiset(sorted);
      var i, j := TwoOf(sorted, Face(s, 14), Face(t, 14));
      RisesApart(sorted, if i < j then i else j, if i < j then j else i);
      assert false;
    }
    if Rises(AceLow(sorted)) && sorted[n - 1].rank == 14 && !TwoAces(sorted) {
      HighRises(sorted);
    }
  }

  lemma HighRises(sorted: seq<Face>)
    requires sorted != [] && Sorted(sorted) && forall f <- sorted :: 2 <= f.rank <= 14
    requires Rises(AceLow(sorted)) && sorted[|sorted| - 1].rank == 14 && !TwoAces(sorted)
    ensures Rises(sorted)
  {
    var n := |sorted|;
    var low := AceLow(sorted);
    forall i | 0 < i < n
      ensures sorted[i].suit == sorted[0].suit && sorted[i].rank - sorted[i - 1].rank >= 1
    {
      RisesApart(low, 0, 1);
      RisesApart(low, 0, i);
      assert sorted[0] == low[1] && sorted[i - 1] == low[i];
      if i < n - 1 {
        assert sorted[i] == low[i + 1];
        RisesApart(low, i, i + 1);
      } else {
        assert sorted[i - 1] in sorted;
        PairOf(sorted, i - 1, i);
        assert sorted[i] == Face(sorted[i].suit, 14);
        assert sorted[i - 1] != Face(sorted[i - 1].suit, 14);
      }
    }
  }

  // ---------- pure sequences are impure sequences ----------

  lemma {:induction false} NormalsCounted(faces: seq<Face>, wild: Face, f: Face)
    ensures multiset(Normals(faces, wild))[f] == if IsFiller(f, wild) then 0 else multiset(faces)[f]
  {
    hide IsFiller;
    if faces != [] {
      var n := |faces| - 1;
      NormalsCounted(faces[..n], wild, f);
      assert faces == faces[..n] + [faces[n]];
      WithOneMoreCounts(faces[..n], faces[n], f);
      WithOneMoreCounts(Normals(faces[..n], wild), faces[n], f);
    }
  }

  lemma SameNormals(a: seq<Face>, b: seq<Face>, wild: Face)
    requires multiset(a) == multiset(b)
    ensures multiset(Normals(a, wild)) == multiset(Normals(b, wild))
  {
    forall f: Face
      ensures multiset(Normals(a, wild))[f] == multiset(Normals(b, wild))[f]
    {
      NormalsCounted(a, wild, f);
      NormalsCounted(b, wild, f);
    }
  }

  /** Taking the fillers out of a row leaves a row. */
  lemma {:induction false} RestrictRow(row: seq<Face>, at: seq<int>, suit: Suit, lo: int, size: nat, wild: Face)
    returns (places: seq<int>)
    requires Row(row, at, suit, lo, size)
    ensures Row(Normals(row, wild), places, suit, lo, size)
    ensures row != [] && places != [] ==> places[|places| - 1] <= at[|at| - 1]
  {
    if row == [] {
      places := [];
    } else {
      var n := |row| - 1;
      places := RestrictRow(row[..n], at[..n], suit, lo, size, wild);
      if !IsFiller(row[n], wild) {
        ExtendRow(Normals(row[..n], wild), places, suit, lo, size, row[n], at[n]);
        places := places + [at[n]];
      }
    }
  }

  lemma ExtendRow(row: seq<Face>, at: seq<int>, suit: Suit, lo: int, size: nat, f: Face, position: int)
    requires Row(row, at, suit, lo, size) && (at != [] ==> at[|at| - 1] < position)
    requires f.suit == suit && MayStandAt(f, position) && lo <= position < lo + size
    ensures Row(row + [f], at + [position], suit, lo, size)
  {
    assert forall i :: 0 <= i < |at| - 1 ==> at[i] < at[|at| - 1];
  }

  /** Whatever the wild card, what is laid out without fillers is also laid out with them. */
  lemma PureMeansImpure(faces: seq<Face>, wild: Face)
    requires IsPureSequence(faces)
    ensures IsImpureSequence(faces, wild)
  {
    var size := |faces|;
    var row: seq<Face>, at: seq<int>, suit: Suit, lo: int :|
      multiset(row) == multiset(faces) && Row(row, at, suit, lo, size);
    var places := RestrictRow(row, at, suit, lo, size, wild);
    SameNormals(row, faces, wild);
  }

  /** A pure sequence of at most 13 cards passes the impure check for every wild card. */
  lemma PureIsImpure(faces: seq<Face>, wild: Face)
    requires 2 <= |faces| <= 13 && AllPrinted(faces) && wild.rank != 0
    requires PureVerdict(faces)
    ensures ImpureVerdict(faces, wild)
  {
    PureExact(faces);
    PureMeansImpure(faces, wild);
    ImpureExactUnlessTwoAces(faces, wild);
  }

  // ---------- sets ----------

  /** What checkSet answers. */
  ghost predicate SetVerdict(faces: seq<Face>, wild: Face) {
    var normals := Normals(faces, wild);
    || |normals| <= 1
    || ((forall i :: 0 <= i < |normals| ==> normals[i].rank == normals[0].rank)
        && (forall i, j :: 0 <= i < j < |normals| ==> normals[i].suit != normals[j].suit))
  }

  function Print(suits: seq<Suit>, rank: int): (faces: seq<Face>)
    ensures |faces| == |suits| && forall i {:trigger faces[i]} :: 0 <= i < |faces| ==> faces[i] == Face(suits[i], rank)
  {
    seq(|suits|, i requires 0 <= i < |suits| => Face(suits[i], rank))
  }

  /** One rank in different suits, fillers standing for the suits the other cards leave free. */
  ghost predicate IsSet(faces: seq<Face>, wild: Face) {
    exists suits: seq<Suit>, rank: int ::
      |suits| == |faces| && NoRepeats(suits) && multiset(Normals(faces, wild)) <= multiset(Print(suits, rank))
  }

  /**
   * The set check accepts exactly the sets, and besides them groups of more than four cards, which no suits can fill.
   */
  lemma SetExactUpToFour(faces: seq<Face>, wild: Face)
    requires AllPrinted(faces) && wild.rank != 0
    ensures IsSet(faces, wild) <==> SetVerdict(faces, wild) && |faces| <= 4
  {
    FillersAndNormals(faces, wild);
    if IsSet(faces, wild) {
      SetIsAccepted(faces, wild);
    }
    if SetVerdict(faces, wild) && |faces| <= 4 {
      var suits, rank := SetHasSuits(Normals(faces, wild), |faces|);
    }
  }

  lemma SetIsAccepted(faces: seq<Face>, wild: Face)
    requires IsSet(faces, wild)
    ensures SetVerdict(faces, wild) && |faces| <= 4
  {
    var normals := Normals(faces, wild);
    var suits: seq<Suit>, rank: int :|
      |suits| == |faces| && NoRepeats(suits) && multiset(normals) <= multiset(Print(suits, rank));
    hide NoRepeats, Print, Normals;
    SuitsAreFour(suits);
    PartOfPrint(normals, suits, rank);
  }

  lemma SetHasSuits(normals: seq<Face>, size: nat) returns (suits: seq<Suit>, rank: int)
    requires |normals| <= size <= 4
    requires forall i :: 0 <= i < |normals| ==> normals[i].rank == normals[0].rank
    requires forall i, j :: 0 <= i < j < |normals| ==> normals[i].suit != normals[j].suit
    ensures |suits| == size && NoRepeats(suits) && multiset(normals) <= multiset(Print(suits, rank))
  {
    rank := if normals == [] then 2 else normals[0].rank;
    var used := seq(|normals|, i requires 0 <= i < |normals| => normals[i].suit);
    var free := FreeSuits(used);
    var more := free[..size - |used|];
    suits := used + more;
    JoinOnce(used, more);
    assert Print(suits, rank) == normals + Print(more, rank);
  }

  lemma FourSuits()
    ensures forall s: Suit :: s in [H, S, D, C]
  {
    forall s: Suit
      ensures s in [H, S, D, C]
    {
      match s {
        case H => assert [H, S, D, C][0] == s;
        case S => assert [H, S, D, C][1] == s;
        case D => assert [H, S, D, C][2] == s;
        case C => assert [H, S, D, C][3] == s;
      }
    }
  }

  lemma SuitsAreFour(suits: seq<Suit>)
    requires NoRepeats(suits)
    ensures |suits| <= 4
  {
    FourSuits();
    var all := SetOf(suits);
    assert forall s <- all :: s in [H, S, D, C];
    SubsetSize(all, {H, S, D, C});
  }

  lemma PartOfPrint(normals: seq<Face>, suits: seq<Suit>, rank: int)
    requires NoRepeats(suits) && multiset(normals) <= multiset(Print(suits, rank))
    ensures forall i :: 0 <= i < |normals| ==> normals[i].rank == rank
    ensures forall i, j :: 0 <= i < j < |normals| ==> normals[i].suit != normals[j].suit
  {
    OnceEach(Print(suits, rank));
    forall i | 0 <= i < |normals|
      ensures normals[i].rank == rank
    {
      assert normals[i] in multiset(normals);
      assert normals[i] in multiset(Print(suits, rank));
    }
    forall f <- multiset(normals)
      ensures multiset(normals)[f] == 1
    {
      assert multiset(normals)[f] <= multiset(Print(suits, rank))[f];
    }
    OnceEach(normals);
    assert forall i :: 0 <= i < |normals| ==> normals[i] == Face(normals[i].suit, rank);
  }

  /** The suits not used yet. */
  lemma {:induction false} FreeSuits(used: seq<Suit>) returns (more: seq<Suit>)
    requires NoRepeats(used)
    ensures NoRepeats(more) && |more| == 4 - |used|
    ensures forall s: Suit :: s in more <==> s !in used
  {
    if used == [] {
      more := [H, S, D, C];
      FourSuits();
    } else {
      var n := |used| - 1;
      more := FreeSuits(used[..n]);
      assert used[n] !in used[..n];
      var k :| 0 <= k < |more| && more[k] == used[n];
      SpliceOne(more, k);
      more := more[..k] + more[k + 1..];
      assert forall s: Suit :: s in used <==> s in used[..n] || s == used[n];
    }
  }
}
