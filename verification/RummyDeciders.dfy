/** checkPureSequence, checkImpureSequence and checkSet: the loops over sorted cards, against what a meld is. */
module RummyDeciders {
  import opened RummyMelds
  import opened Sequences
  import Sorting

  // ---------- rows without gaps ----------

  ghost predicate Consecutive(faces: seq<Face>) {
    forall i :: 0 < i < |faces| ==> faces[i].suit == faces[0].suit && faces[i].rank - faces[i - 1].rank == 1
  }

  /** No gap at all is one step of one rank everywhere. */
  lemma NoGaps(faces: seq<Face>)
    requires faces != []
    ensures Rises(faces) && Needed(faces) <= 0 <==> Consecutive(faces)
  {
    var n := |faces|;
    if Consecutive(faces) {
      StepsAdd(faces, n - 1);
    } else if Rises(faces) {
      var i :| 0 < i < n && faces[i].rank - faces[i - 1].rank != 1;
      assert faces[i].rank - faces[i - 1].rank > 1;
      hide Rises, Consecutive;
      RisesApart(faces, 0, i - 1);
      RisesApart(faces, i, n - 1);
    }
  }

  lemma {:induction false} StepsAdd(faces: seq<Face>, k: nat)
    requires k < |faces| && Consecutive(faces)
    ensures faces[k].rank == faces[0].rank + k && faces[k].suit == faces[0].suit
  {
    if k > 0 {
      StepsAdd(faces, k - 1);
    }
  }

  /** When the ace directly follows the card before it, a low row without gaps is a high one too. */
  lemma LowRowIsHigh(sorted: seq<Face>)
    requires |sorted| >= 2 && Consecutive(AceLow(sorted)) && sorted[|sorted| - 1].rank == 14
    requires sorted[|sorted| - 1].rank - sorted[|sorted| - 2].rank == 1
    ensures Consecutive(sorted)
  {
    var low := AceLow(sorted);
    var n := |sorted|;
    forall i | 0 < i < n
      ensures sorted[i].suit == sorted[0].suit && sorted[i].rank - sorted[i - 1].rank == 1
    {
      assert sorted[0] == low[1] && sorted[i - 1] == low[i];
      if i < n - 1 {
        assert sorted[i] == low[i + 1];
      }
    }
  }

  lemma BridgedWithoutGaps(sorted: seq<Face>)
    requires sorted != []
    ensures Bridged(sorted, 0) <==>
            Consecutive(sorted) || (sorted[|sorted| - 1].rank == 14 && Consecutive(AceLow(sorted)))
  {
    NoGaps(sorted);
    NoGaps(AceLow(sorted));
  }

  predicate StepAt(cards: seq<Face>, index: nat, suit: Suit)
    requires 0 < index < |cards|
  {
    cards[index].suit == suit && cards[index].rank - cards[index - 1].rank == 1
  }

  /** A broken step decides the check, unless it is the one below a top ace of the right suit. */
  lemma BrokenStep(sorted: seq<Face>, index: nat)
    requires 0 < index < |sorted| && !StepAt(sorted, index, sorted[0].suit)
    requires forall i :: index < i < |sorted| ==> StepAt(sorted, i, sorted[0].suit)
    ensures Bridged(sorted, 0) <==>
              index == |sorted| - 1 && sorted[index].rank == 14 && sorted[index].suit == sorted[0].suit
                                    && Consecutive(AceLow(sorted))
  {
    BridgedWithoutGaps(sorted);
    assert AceLow(sorted)[1] == sorted[0];
    if Consecutive(AceLow(sorted)) && sorted[|sorted| - 1].rank == 14 && index < |sorted| - 1 {
      assert StepAt(sorted, |sorted| - 1, sorted[0].suit);
      LowRowIsHigh(sorted);
    }
  }

  method CheckPureSequence(cardsArray: seq<Card>) returns (valid: bool)
    requires cardsArray != []
    ensures valid <==> PureVerdict(Faces(cardsArray))
  {
    hide SortCardsByNumber, Bridged;
    ghost var sorted := SortSorts(Faces(cardsArray));
    BridgedWithoutGaps(sorted);
    var cards := SortCardsByNumber(Faces(cardsArray));
    var suit := cards[0].suit;
    var numberOfNeededCards := 0;
    var index := |cards| - 1;
    while index > 0
      invariant 0 <= index < |cards| && numberOfNeededCards == 0
      invariant forall i :: index < i < |cards| ==> StepAt(cards, i, suit)
    {
      if !StepAt(cards, index, suit) {
        BrokenStep(sorted, index);
      }
      if cards[index].suit != suit {
        return false;
      }
      var step := cards[index].rank - cards[index - 1].rank;
      if step == 1 {
        numberOfNeededCards := numberOfNeededCards + (step - 1);
      } else if index == |cards| - 1 && cards[index].rank == 14 {
        cards := [cards[index].(rank := 1)] + cards[..index];
        valid := HasNoGaps(cards, suit);
        return;
      } else {
        return false;
      }
      index := index - 1;
    }
    AllSteps(cards);
    return true;
  }

  lemma AllSteps(cards: seq<Face>)
    requires cards != [] && forall i :: 0 < i < |cards| ==> StepAt(cards, i, cards[0].suit)
    ensures Consecutive(cards)
  {
    forall i | 0 < i < |cards|
      ensures cards[i].suit == cards[0].suit && cards[i].rank - cards[i - 1].rank == 1
    {
      assert StepAt(cards, i, cards[0].suit);
    }
  }

  /** The second pass, after the ace has been put in front as a 1. */
  method HasNoGaps(cards: seq<Face>, suit: Suit) returns (valid: bool)
    requires cards != [] && cards[0].suit == suit
    ensures valid <==> Consecutive(cards)
  {
    var numberOfNeededCards := 0;
    var index := |cards| - 1;
    while index > 0
      invariant 0 <= index < |cards| && numberOfNeededCards == 0
      invariant forall i :: index < i < |cards| ==> cards[i].suit == suit && cards[i].rank - cards[i - 1].rank == 1
    {
      var step := cards[index].rank - cards[index - 1].rank;
      if cards[index].suit == suit && step == 1 {
        numberOfNeededCards := numberOfNeededCards + (step - 1);
      } else {
        return false;
      }
      index := index - 1;
    }
    return numberOfNeededCards == 0;
  }

  // ---------- jokers and wild cards ----------

  /** Lists the positions of jokers and wild cards, and keeps the cards at all other positions. */
  method SplitFillers(cards: seq<Face>, wild: Face) returns (noJokerWild: nat, normals: seq<Face>)
    ensures normals == Normals(cards, wild)
    ensures noJokerWild == FillerCount(cards, wild)
  {
    var idsOfJokerWild: seq<nat> := [];
    for index := 0 to |cards|
      invariant |idsOfJokerWild| == FillerCount(cards[..index], wild)
      invariant forall x: nat :: x in idsOfJokerWild <==> x < index && IsFiller(cards[x], wild)
    {
      assert cards[..index + 1][..index] == cards[..index];
      if IsJoker(cards[index]) {
        idsOfJokerWild := idsOfJokerWild + [index];
      }
      if cards[index].rank == wild.rank {
        idsOfJokerWild := idsOfJokerWild + [index];
      }
    }
    assert cards[..|cards|] == cards;
    normals := [];
    for index := 0 to |cards|
      invariant normals == Normals(cards[..index], wild)
    {
      assert cards[..index + 1][..index] == cards[..index];
      if index !in idsOfJokerWild {
        normals := normals + [cards[index]];
      }
    }
    noJokerWild := |idsOfJokerWild|;
  }

  // ---------- impure sequences ----------

  method CheckImpureSequence(cardsArray: seq<Card>, wild: Face) returns (valid: bool)
    requires cardsArray != []
    ensures valid <==> ImpureVerdict(Faces(cardsArray), wild)
  {
    hide SortCardsByNumber;
    var noJokerWild, normals := SplitFillers(Faces(cardsArray), wild);
    if |normals| <= 1 {
      return true;
    }
    ghost var sorted := SortSorts(normals);
    var cards := SortCardsByNumber(normals);
    var rises, numberOfNeededCards := CountNeeded(cards, cards[0].suit);
    if !rises {
      return false;
    }
    GapsCount(cards);
    if numberOfNeededCards >= 0 && numberOfNeededCards <= noJokerWild {
      return true;
    }
    var indexOfLastCard := |cards| - 1;
    if cards[indexOfLastCard].rank != 14 {
      return false;
    }
    var suit := cards[0].suit;
    assert cards[indexOfLastCard].suit == suit;
    cards := [cards[indexOfLastCard].(rank := 1)] + cards[..indexOfLastCard];
    rises, numberOfNeededCards := CountNeeded(cards, suit);
    if rises {
      GapsCount(cards);
    }
    return rises && numberOfNeededCards <= noJokerWild && numberOfNeededCards >= 0;
  }

  lemma GapsCount(faces: seq<Face>)
    requires Rises(faces)
    ensures Needed(faces) >= 0
  {
    RisesApart(faces, 0, |faces| - 1);
  }

  /** Walks down the row adding up the missing positions, and gives up at another suit or at equal ranks. */
  method CountNeeded(cards: seq<Face>, suit: Suit) returns (rises: bool, numberOfNeededCards: int)
    requires cards != [] && cards[0].suit == suit
    ensures rises <==> Rises(cards)
    ensures rises ==> numberOfNeededCards == Needed(cards)
  {
    numberOfNeededCards := 0;
    var index := |cards| - 1;
    while index > 0
      invariant 0 <= index < |cards|
      invariant RisesFrom(cards, index + 1, suit)
      invariant numberOfNeededCards == cards[|cards| - 1].rank - cards[index].rank - (|cards| - 1 - index)
    {
      var step := cards[index].rank - cards[index - 1].rank;
      if cards[index].suit == suit && step >= 1 {
        numberOfNeededCards := numberOfNeededCards + step - 1;
      } else {
        return false, 0;
      }
      index := index - 1;
    }
    return true, numberOfNeededCards;
  }

  // ---------- sets ----------

  method CheckSet(cardsArray: seq<Card>, wild: Face) returns (valid: bool)
    requires cardsArray != []
    ensures valid <==> SetVerdict(Faces(cardsArray), wild)
  {
    var _, cards := SplitFillers(Faces(cardsArray), wild);
    if |cards| <= 1 {
      return true;
    }
    var suits := [H, S, D, C];
    FourSuits();
    var setNumber := cards[0].rank;
    for k := 0 to |cards|
      invariant forall i :: 0 <= i < k ==> cards[i].rank == setNumber
      invariant forall i, j :: 0 <= i < j < k ==> cards[i].suit != cards[j].suit
      invariant NoRepeats(suits)
      invariant forall s: Suit :: s in suits <==> forall i :: 0 <= i < k ==> cards[i].suit != s
    {
      if cards[k].rank != setNumber {
        return false;
      }
      if cards[k].suit !in suits {
        return false;
      }
      var suitIndex :| 0 <= suitIndex < |suits| && suits[suitIndex] == cards[k].suit;
      SpliceOne(suits, suitIndex);
      ghost var before := suits;
      suits := suits[..suitIndex] + suits[suitIndex + 1..];
      forall s: Suit
        ensures s in suits <==> forall i :: 0 <= i < k + 1 ==> cards[i].suit != s
      {
        assert s in suits <==> s in before && s != cards[k].suit;
      }
    }
    return true;
  }

  // ---------- a concrete hand ----------

  lemma {:induction false} InsertTop(f: Face, s: seq<Face>)
    requires s != [] ==> s[|s| - 1].rank <= f.rank
    ensures Sorting.Insert(RankOf, f, s) == s + [f]
  {
  }

  lemma {:induction false} SortedStays(faces: seq<Face>)
    requires Sorted(faces)
    ensures SortCardsByNumber(faces) == faces
  {
    if faces != [] {
      var n := |faces| - 1;
      SortedStays(faces[..n]);
      InsertTop(faces[n], faces[..n]);
    }
  }

  const FOURTEEN_HEARTS: seq<Face> := seq(14, i requires 0 <= i < 14 => Face(H, if i == 13 then 14 else i + 2))

  /**
   * Fourteen hearts from 2 to ace with a second ace: pure by one check, not even impure by the other, though they are.
   */
  lemma FourteenCards(wild: Face)
    requires wild == Face(S, 5)
    ensures PureVerdict(FOURTEEN_HEARTS) && IsImpureSequence(FOURTEEN_HEARTS, wild)
    ensures !ImpureVerdict(FOURTEEN_HEARTS, wild)
  {
    hide PureVerdict, IsPureSequence, ImpureVerdict, IsImpureSequence, TwoAces;
    FourteenArePure();
    PureExact(FOURTEEN_HEARTS);
    PureMeansImpure(FOURTEEN_HEARTS, wild);
    TwoAcesStay(FOURTEEN_HEARTS, wild);
    ImpureExactUnlessTwoAces(FOURTEEN_HEARTS, wild);
  }

  lemma FourteenArePure()
    ensures PureVerdict(FOURTEEN_HEARTS)
  {
    SortedStays(FOURTEEN_HEARTS);
    BridgedWithoutGaps(FOURTEEN_HEARTS);
  }

  lemma TwoAcesStay(faces: seq<Face>, wild: Face)
    requires |faces| >= 2 && wild.rank != 14
    requires faces[|faces| - 1] == faces[|faces| - 2] == Face(H, 14)
    ensures TwoAces(Normals(faces, wild))
  {
    var n := |faces|;
    assert Normals(faces[..n - 1], wild) == Normals(faces[..n - 1][..n - 2], wild) + [Face(H, 14)];
    var normals := Normals(faces, wild);
    PairOf(normals, |normals| - 2, |normals| - 1);
  }
}
