/** Two concrete hands of thirteen cards on which the rummy checks decide differently than their purpose asks. */
module RummyHands {
  import opened RummyMelds
  import opened RummyDeclaration
  import Lists = Sequences

  /** Thirteen different cards in an arrangement that is accepted for them. */
  ghost predicate IsArranged(hand: seq<Card>, groups: seq<Group>) {
    |hand| == 13 && Lists.NoRepeats(hand) && multiset(GroupedCards(groups)) == multiset(hand)
  }

  lemma {:induction false} NoFillers(faces: seq<Face>, wild: Face)
    requires forall i :: 0 <= i < |faces| ==> !IsFiller(faces[i], wild)
    ensures Normals(faces, wild) == faces
  {
    if faces != [] {
      NoFillers(faces[..|faces| - 1], wild);
    }
  }

  /** Two suits are no sequence. */
  lemma MixedSuits(faces: seq<Face>, wild: Face, i: nat, j: nat)
    requires i < |faces| && j < |faces| && !IsFiller(faces[i], wild) && !IsFiller(faces[j], wild)
    requires faces[i].suit != faces[j].suit
    ensures !IsImpureSequence(faces, wild) && !IsPureSequence(faces)
  {
    var normals := Normals(faces, wild);
    NormalsCounted(faces, wild, faces[i]);
    NormalsCounted(faces, wild, faces[j]);
    assert faces[i] in multiset(normals) && faces[j] in multiset(normals);
    forall row: seq<Face>, at: seq<int>, suit: Suit, lo: int | multiset(row) == multiset(normals)
      ensures !Row(row, at, suit, lo, |faces|)
    {
      assert faces[i] in row && faces[j] in row;
    }
    if IsPureSequence(faces) {
      PureMeansImpure(faces, wild);
    }
  }

  lemma StepsArePure(faces: seq<Face>)
    requires faces != [] && 2 <= faces[0].rank && faces[0].rank + |faces| - 1 <= 14
    requires forall i :: 0 <= i < |faces| ==> faces[i] == Face(faces[0].suit, faces[0].rank + i)
    ensures IsPureSequence(faces)
  {
    var at := seq(|faces|, i => faces[0].rank + i);
    assert Row(faces, at, faces[0].suit, faces[0].rank, |faces|);
  }

  lemma ThreeGroups(a: Group, b: Group, c: Group)
    ensures GroupedCards([a, b, c]) == a.cards + b.cards + c.cards
  {
    assert [a, b, c][..2] == [a, b] && [a, b][..1] == [a] && [a][..0] == [];
    assert GroupedCards([a]) == a.cards && GroupedCards([a, b]) == a.cards + b.cards;
  }

  // ---------- a set of five cards ----------

  const FIVE_SEVENS: seq<Face> := [Face(H, 7), Face(S, 7), Face(D, 7), Face(S, 0), Face(D, 0)]

  /** Three sevens and two jokers pass as a set, though there is only one suit left for two jokers. */
  lemma LongSet(wild: Face)
    requires wild.rank !in {0, 7}
    ensures SetVerdict(FIVE_SEVENS, wild) && !IsSet(FIVE_SEVENS, wild) && |FIVE_SEVENS| == 5 && AllPrinted(FIVE_SEVENS)
  {
    var five := FIVE_SEVENS;
    var sevens := [Face(H, 7), Face(S, 7), Face(D, 7)];
    assert five[..4][..3] == five[..3] == sevens;
    NoFillers(sevens, wild);
    assert Normals(five[..4], wild) == sevens;
    SetExactUpToFour(five, wild);
  }

  function LowSpades(): (cards: seq<Card>)
    ensures |cards| == 4
  {
    [Card(1, Face(S, 2)), Card(1, Face(S, 3)), Card(1, Face(S, 4)), Card(1, Face(S, 5))]
  }

  function HighSpades(): (cards: seq<Card>)
    ensures |cards| == 4
  {
    [Card(1, Face(S, 8)), Card(1, Face(S, 9)), Card(1, Face(S, 10)), Card(1, Face(S, 11))]
  }

  function Sevens(): (cards: seq<Card>)
    ensures |cards| == 5
  {
    [Card(1, Face(H, 7)), Card(1, Face(S, 7)), Card(1, Face(D, 7)), Card(1, Face(S, 0)), Card(1, Face(D, 0))]
  }

  /** A whole hand around it: the declaration is valid though its last group is no meld. */
  lemma LongSetPasses(wild: Face) returns (hand: seq<Card>, groups: seq<Group>)
    requires wild.rank !in {0, 7}
    ensures IsArranged(hand, groups) && Dealt(groups, wild)
    ensures AllValid(RelabelAll(groups, wild)) && EnoughSequences(RelabelAll(groups, wild)) && !AllMelds(groups, wild)
  {
    hide Kind, CountLabel, GroupedCards, IsMeld, AllPrinted, Lists.NoRepeats, EnoughSequences, LowSpades, HighSpades,
         Sevens;
    hand := LowSpades() + HighSpades() + Sevens();
    groups := [Group(LowSpades(), Unlabelled, false), Group(HighSpades(), Unlabelled, false),
        Group(Sevens(), Unlabelled, false)];
    assert IsArranged(hand, groups) by {
      ThreeGroups(groups[0], groups[1], groups[2]);
      DistinctLongSet();
    }
    SpadesArePure(LowSpades(), wild);
    SpadesArePure(HighSpades(), wild);
    SevensAreLabelled(wild);
    TwoPure(groups, wild);
  }

  lemma DistinctLongSet()
    ensures Lists.NoRepeats(LowSpades() + HighSpades() + Sevens())
  {
  }

  lemma SpadesArePure(cards: seq<Card>, wild: Face)
    requires wild.rank != 0 && cards in {LowSpades(), HighSpades()}
    ensures Kind(cards, wild) == Labelled(PureSequence) && AllPrinted(Faces(cards))
  {
    hide PureVerdict, IsPureSequence, IsImpureSequence, SetVerdict, IsMeld, ShortOrSequence;
    StepsArePure(Faces(cards));
    KindIsExact(cards, wild);
  }

  lemma SevensAreLabelled(wild: Face)
    requires wild.rank !in {0, 7}
    ensures Kind(Sevens(), wild) != Unlabelled && AllPrinted(Faces(Sevens())) && !IsMeld(Sevens(), wild)
  {
    hide IsPureSequence, IsImpureSequence, SetVerdict, IsSet, ShortOrSequence, AllPrinted;
    assert Faces(Sevens()) == FIVE_SEVENS;
    LongSet(wild);
    MixedSuits(FIVE_SEVENS, wild, 0, 1);
    KindIsExact(Sevens(), wild);
  }

  ghost predicate ThreeDealt(groups: seq<Group>, wild: Face) {
    && |groups| == 3 && wild.rank != 0
    && (|groups[0].cards| <= 13 && |groups[1].cards| <= 13 && |groups[2].cards| <= 13)
    && AllPrinted(Faces(groups[0].cards)) && AllPrinted(Faces(groups[1].cards)) && AllPrinted(Faces(groups[2].cards))
  }

  lemma TwoPure(groups: seq<Group>, wild: Face)
    requires ThreeDealt(groups, wild) && !IsMeld(groups[2].cards, wild)
    requires Kind(groups[0].cards, wild) == Kind(groups[1].cards, wild) == Labelled(PureSequence)
    requires Kind(groups[2].cards, wild) != Unlabelled
    ensures Dealt(groups, wild) && !AllMelds(groups, wild)
    ensures AllValid(RelabelAll(groups, wild)) && EnoughSequences(RelabelAll(groups, wild))
  {
    hide Kind, IsMeld, AllPrinted;
    var labelled := RelabelAll(groups, wild);
    assert labelled[..2][..1] == labelled[..1] && labelled[..1][..0] == [];
    assert CountLabel(labelled[..1], PureSequence) == 1;
    assert CountLabel(labelled[..2], PureSequence) == 2;
  }

  // ---------- left-over labels ----------

  function Kings(): (cards: seq<Card>)
    ensures |cards| == 3
  {
    [Card(1, Face(H, 13)), Card(1, Face(S, 13)), Card(1, Face(D, 13))]
  }

  function Small(): (cards: seq<Card>)
    ensures |cards| == 5
  {
    [Card(1, Face(H, 2)), Card(1, Face(S, 4)), Card(1, Face(H, 6)), Card(1, Face(S, 8)), Card(1, Face(H, 9))]
  }

  function Other(): (cards: seq<Card>)
    ensures |cards| == 5
  {
    [Card(1, Face(S, 3)), Card(1, Face(H, 4)), Card(1, Face(S, 6)), Card(1, Face(H, 8)), Card(1, Face(S, 9))]
  }

  /**
   * Three kings and ten small cards in two groups labelled as sequences: the hand has no sequence at all, keeps its
   * isDecValid all the same, and so scores 59 instead of 80 points.
   */
  lemma StaleLabelsPass(wild: Face) returns (hand: seq<Card>, groups: seq<Group>)
    requires wild.rank == 10
    ensures IsArranged(hand, groups) && Dealt(groups, wild)
    ensures PureSequenceCount(groups) == 0 && SequenceCount(groups, wild) == 0
    ensures EnoughSequences(RelabelAll(groups, wild)) && !HasSequences(groups, wild)
    ensures Score(RelabelAll(groups, wild), wild, true) == 59 && Score(RelabelAll(groups, wild), wild, false) == 80
  {
    hide Kind, CountLabel, GroupedCards, AllPrinted, Lists.NoRepeats, EnoughSequences, HandPoints, IsPureSequence,
         IsImpureSequence;
    hide Normals, PointSum, SequenceCount, PureSequenceCount, HasOrClaimsSequences, Kings, Small, Other;
    hand := Kings() + Small() + Other();
    groups := [Group(Kings(), Unlabelled, false), Group(Small(), Labelled(PureSequence), true),
               Group(Other(), Labelled(ImpureSequence), true)];
    assert IsArranged(hand, groups) by {
      ThreeGroups(groups[0], groups[1], groups[2]);
      DistinctNoSequence();
    }
    KingsAreLabelled(wild);
    SmallAreNoMeld(Small(), wild);
    SmallAreNoMeld(Other(), wild);
    SetAndTwoClaims(groups, wild);
  }

  /** A set and two groups that are no melds but came labelled as sequences. */
  lemma SetAndTwoClaims(groups: seq<Group>, wild: Face)
    requires ThreeDealt(groups, wild) && Kind(groups[0].cards, wild) == Labelled(Set)
    requires Kind(groups[1].cards, wild) == Kind(groups[2].cards, wild) == Unlabelled
    requires groups[1].groupState == Labelled(PureSequence) && groups[2].groupState == Labelled(ImpureSequence)
    ensures Dealt(groups, wild) && PureSequenceCount(groups) == 0 && SequenceCount(groups, wild) == 0
    ensures EnoughSequences(RelabelAll(groups, wild))
    ensures var labelled := RelabelAll(groups, wild);
            var junk := PointSum(Normals(Faces(groups[1].cards), wild))
                        + PointSum(Normals(Faces(groups[2].cards), wild));
            && HandPoints(labelled, wild, true) == junk
            && HandPoints(labelled, wild, false) == PointSum(Normals(Faces(groups[0].cards), wild)) + junk
  {
    hide Kind, AllPrinted, IsPureSequence, IsImpureSequence, SetVerdict, IsMeld, ShortOrSequence, EnoughSequences,
         HandPoints, Normals, PointSum, SequenceCount, PureSequenceCount, HasOrClaimsSequences;
    assert Dealt(groups, wild);
    NoneOfThree(groups, wild);
    TwoClaims(groups, wild);
    StoredVerdict(groups, wild);
    PointsOfHand(RelabelAll(groups, wild), wild);
  }

  lemma KingsAreLabelled(wild: Face)
    requires wild.rank == 10
    ensures Kind(Kings(), wild) == Labelled(Set) && AllPrinted(Faces(Kings()))
    ensures PointSum(Normals(Faces(Kings()), wild)) == 30
  {
    hide PureVerdict, ImpureVerdict, IsPureSequence, IsImpureSequence, IsMeld, PointSum, Normals;
    NoFillers(Faces(Kings()), wild);
    MixedSuits(Faces(Kings()), wild, 0, 1);
    KindOfSet(Kings(), wild);
    PointsOfThree(Faces(Kings()));
  }

  lemma SmallAreNoMeld(cards: seq<Card>, wild: Face)
    requires wild.rank == 10 && cards in {Small(), Other()}
    ensures Kind(cards, wild) == Unlabelled && AllPrinted(Faces(cards))
    ensures cards == Small() ==> PointSum(Normals(Faces(cards), wild)) == 29
    ensures cards == Other() ==> PointSum(Normals(Faces(cards), wild)) == 30
  {
    hide PureVerdict, ImpureVerdict, IsPureSequence, IsImpureSequence, IsMeld, PointSum, Normals, Kind;
    NoFillers(Faces(cards), wild);
    MixedSuits(Faces(cards), wild, 0, 1);
    KindIsExact(cards, wild);
    PointsOfFive(Faces(cards));
  }

  lemma KindOfSet(cards: seq<Card>, wild: Face)
    requires |cards| >= 3 && SetVerdict(Faces(cards), wild) && !IsImpureSequence(Faces(cards), wild)
    requires wild.rank != 0 && |cards| <= 13 && AllPrinted(Faces(cards))
    ensures Kind(cards, wild) == Labelled(Set)
  {
    hide PureVerdict, ImpureVerdict, SetVerdict, IsImpureSequence;
    KindIsExact(cards, wild);
  }

  lemma NoneOfThree(groups: seq<Group>, wild: Face)
    requires |groups| == 3 && Dealt(groups, wild)
    requires forall i :: 0 <= i < 3 ==>
               Kind(groups[i].cards, wild) !in {Labelled(PureSequence), Labelled(ImpureSequence)}
    ensures PureSequenceCount(groups) == 0 && SequenceCount(groups, wild) == 0
  {
    hide IsPureSequence, IsImpureSequence, Kind, SetVerdict, IsMeld, ShortOrSequence;
    KindIsExact(groups[0].cards, wild);
    KindIsExact(groups[1].cards, wild);
    KindIsExact(groups[2].cards, wild);
    assert groups[..2][..1] == groups[..1] && groups[..1][..0] == [];
    assert PureSequenceCount(groups[..1]) == 0 && SequenceCount(groups[..1], wild) == 0;
    assert PureSequenceCount(groups[..2]) == 0 && SequenceCount(groups[..2], wild) == 0;
  }

  /** Two left-over labels are enough for the stored verdict. */
  lemma TwoClaims(groups: seq<Group>, wild: Face)
    requires |groups| == 3 && Kind(groups[1].cards, wild) == Kind(groups[2].cards, wild) == Unlabelled
    requires groups[1].groupState == Labelled(PureSequence) && groups[2].groupState == Labelled(ImpureSequence)
    ensures HasOrClaimsSequences(groups, wild)
  {
    hide Kind, IsPureSequence, IsImpureSequence;
    assert groups[..2][..1] == groups[..1];
    assert Stale(groups[..2], wild, PureSequence) >= 1;
  }

  lemma PointsOfFive(f: seq<Face>)
    requires |f| == 5
    ensures PointSum(f) == Points(f[0]) + Points(f[1]) + Points(f[2]) + Points(f[3]) + Points(f[4])
  {
    hide Points;
    assert f[..4][..3] == f[..3];
    PointsOfThree(f[..3]);
    assert PointSum(f[..4]) == PointSum(f[..3]) + Points(f[3]);
  }

  lemma PointsOfThree(f: seq<Face>)
    requires |f| == 3
    ensures PointSum(f) == Points(f[0]) + Points(f[1]) + Points(f[2])
  {
    hide Points;
    assert f[..2][..1] == f[..1] && f[..1][..0] == [];
    assert PointSum(f[..1]) == Points(f[0]);
    assert PointSum(f[..2]) == Points(f[0]) + Points(f[1]);
  }

  /** A set and two groups that are no melds: only the verdict on the sequences decides whether the set counts. */
  lemma PointsOfHand(groups: seq<Group>, wild: Face)
    requires |groups| == 3 && groups[0].valid && groups[0].groupState == Labelled(Set)
    requires !groups[1].valid && !groups[2].valid
    ensures HandPoints(groups, wild, true) ==
            PointSum(Normals(Faces(groups[1].cards), wild)) + PointSum(Normals(Faces(groups[2].cards), wild))
    ensures HandPoints(groups, wild, false) ==
            PointSum(Normals(Faces(groups[0].cards), wild)) + HandPoints(groups, wild, true)
  {
    hide PointSum, Normals;
    assert groups[..2][..1] == groups[..1] && groups[..1][..0] == [];
    assert HandPoints(groups[..1], wild, true) == 0;
    assert HandPoints(groups[..1], wild, false) == PointSum(Normals(Faces(groups[0].cards), wild));
    assert groups[..2][1] == groups[1];
  }

  lemma DistinctNoSequence()
    ensures Lists.NoRepeats(Kings() + Small() + Other())
  {
  }
}
