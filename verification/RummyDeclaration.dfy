/** Declaring a rummy hand: labelling its groups, deciding whether it is valid, and scoring it. */
module RummyDeclaration {
  import opened RummyMelds
  import opened RummyDeciders

  datatype GroupState = PureSequence | ImpureSequence | Set | Heart | Spade | Diamond | Club | Joker

  datatype Label = Unlabelled | Labelled(state: GroupState)

  /** A group as the client arranged it; label and validity may be left over from any earlier moment. */
  datatype Group = Group(cards: seq<Card>, groupState: Label, valid: bool)

  const MAX_SCORE: nat := 80

  function GroupedCards(groups: seq<Group>): seq<Card> {
    if groups == [] then [] else GroupedCards(groups[..|groups| - 1]) + groups[|groups| - 1].cards
  }

  // ---------- labels ----------

  /** What a group is, if it is a meld. */
  ghost function Kind(cards: seq<Card>, wild: Face): Label {
    if |cards| < 3 then Unlabelled
    else if PureVerdict(Faces(cards)) then Labelled(PureSequence)
    else if ImpureVerdict(Faces(cards), wild) then Labelled(ImpureSequence)
    else if SetVerdict(Faces(cards), wild) then Labelled(Set)
    else Unlabelled
  }

  /** A meld gets its own label; any other group keeps the label it came with. */
  ghost function Relabel(group: Group, wild: Face): Group {
    var kind := Kind(group.cards, wild);
    if kind == Unlabelled then group.(valid := false) else group.(groupState := kind, valid := true)
  }

  ghost function RelabelAll(groups: seq<Group>, wild: Face): (r: seq<Group>)
    ensures |r| == |groups| && forall i {:trigger r[i]} :: 0 <= i < |r| ==> r[i] == Relabel(groups[i], wild)
  {
    seq(|groups|, i requires 0 <= i < |groups| => Relabel(groups[i], wild))
  }

  function CountLabel(groups: seq<Group>, state: GroupState): nat {
    if groups == [] then 0 else
      CountLabel(groups[..|groups| - 1], state) + if groups[|groups| - 1].groupState == Labelled(state) then 1 else 0
  }

  /** At least one pure sequence and at least two sequences, going by the labels. */
  predicate EnoughSequences(groups: seq<Group>) {
    CountLabel(groups, PureSequence) > 0 && CountLabel(groups, PureSequence) + CountLabel(groups, ImpureSequence) >= 2
  }

  predicate AllValid(groups: seq<Group>) {
    forall i :: 0 <= i < |groups| ==> groups[i].valid
  }

  method LabelGroup(group: Group, wild: Face) returns (labelled: Group)
    ensures labelled == Relabel(group, wild)
  {
    if |group.cards| >= 3 {
      var isPureSeqValid := CheckPureSequence(group.cards);
      if isPureSeqValid {
        return group.(groupState := Labelled(PureSequence), valid := true);
      }
      var isImpureSeqValid := CheckImpureSequence(group.cards, wild);
      if isImpureSeqValid {
        return group.(groupState := Labelled(ImpureSequence), valid := true);
      }
      var isOthersValid := CheckSet(group.cards, wild);
      if isOthersValid {
        return group.(groupState := Labelled(Set), valid := true);
      }
    }
    return group.(valid := false);
  }

  method LabelGroups(groups: seq<Group>, wild: Face) returns (updatedGroups: seq<Group>, isValid: bool)
    ensures updatedGroups == RelabelAll(groups, wild)
    ensures isValid <==> AllValid(updatedGroups)
  {
    updatedGroups, isValid := [], true;
    for i := 0 to |groups|
      invariant |updatedGroups| == i && forall j :: 0 <= j < i ==> updatedGroups[j] == Relabel(groups[j], wild)
      invariant isValid <==> AllValid(updatedGroups)
    {
      var group := LabelGroup(groups[i], wild);
      if !group.valid {
        isValid := false;
      }
      updatedGroups := updatedGroups + [group];
    }
  }

  method CountSequences(groups: seq<Group>) returns (noPureSequence: nat, noImPureSequence: nat)
    ensures noPureSequence == CountLabel(groups, PureSequence)
    ensures noImPureSequence == CountLabel(groups, ImpureSequence)
  {
    noPureSequence, noImPureSequence := 0, 0;
    for i := 0 to |groups|
      invariant noPureSequence == CountLabel(groups[..i], PureSequence)
      invariant noImPureSequence == CountLabel(groups[..i], ImpureSequence)
    {
      assert groups[..i + 1][..i] == groups[..i];
      if groups[i].groupState == Labelled(PureSequence) {
        noPureSequence := noPureSequence + 1;
      }
      if groups[i].groupState == Labelled(ImpureSequence) {
        noImPureSequence := noImPureSequence + 1;
      }
    }
    assert groups[..|groups|] == groups;
  }

  // ---------- the player ----------

  class RummyPlayer {
    var cardsGroups: seq<Group>
    var declare: bool
    var active: bool
    var softDrop: bool
    var isDecValid: bool
    var score: nat

    constructor (groups: seq<Group>)
      ensures cardsGroups == groups && !declare && active && !softDrop && isDecValid && score == 0
    {
      cardsGroups, declare, active, softDrop, isDecValid, score := groups, false, true, false, true, 0;
    }

    /** checkDeclaredCards, with a wild card on the table. */
    method CheckDeclaredCards(wild: Face, isFinishRequest: bool) returns (isValid: bool)
      modifies this
      ensures cardsGroups == RelabelAll(old(cardsGroups), wild) && declare && !active
      ensures isValid <==> AllValid(cardsGroups) && EnoughSequences(cardsGroups)
      ensures isDecValid <==> old(isDecValid) && EnoughSequences(cardsGroups)
      ensures Dealt(old(cardsGroups), wild) ==>
                && (isValid && NoLongSet(old(cardsGroups), wild) <==>
                    AllMelds(old(cardsGroups), wild) && HasSequences(old(cardsGroups), wild))
                && (isDecValid <==> old(isDecValid) && HasOrClaimsSequences(old(cardsGroups), wild))
      ensures if isValid || isFinishRequest then score == old(score) && softDrop == old(softDrop)
              else score == MAX_SCORE && softDrop
    {
      hide AllMelds, HasSequences, HasOrClaimsSequences, NoLongSet, Dealt;
      if Dealt(cardsGroups, wild) {
        DeclarationExact(cardsGroups, wild);
        StoredVerdict(cardsGroups, wild);
      }
      cardsGroups, isValid := LabelGroups(cardsGroups, wild);
      declare, active := true, false;
      if !isValid && !isFinishRequest {
        score, softDrop := 80, true;
      }
      var noPureSequence, noImPureSequence := CountSequences(cardsGroups);
      if noPureSequence == 0 || noPureSequence + noImPureSequence < 2 {
        isValid, isDecValid := false, false;
        if !isFinishRequest {
          score, softDrop := 80, true;
        }
      }
    }

    /** What finishRound does to a player who has not declared. */
    method FinishRound(wild: Face)
      modifies this
      ensures declare == old(declare) && active == old(active) && score == old(score) && softDrop == old(softDrop)
      ensures cardsGroups == if old(declare) then old(cardsGroups) else RelabelAll(old(cardsGroups), wild)
      ensures isDecValid <==> old(isDecValid) && (old(declare) || EnoughSequences(cardsGroups))
      ensures !old(declare) && Dealt(old(cardsGroups), wild) ==>
                (isDecValid <==> old(isDecValid) && HasOrClaimsSequences(old(cardsGroups), wild))
    {
      hide HasOrClaimsSequences, Dealt;
      if Dealt(cardsGroups, wild) {
        StoredVerdict(cardsGroups, wild);
      }
      if !declare {
        var updatedGroups, _ := LabelGroups(cardsGroups, wild);
        cardsGroups := updatedGroups;
        var noPureSequence, noImPureSequence := CountSequences(cardsGroups);
        if noPureSequence == 0 || noPureSequence + noImPureSequence < 2 {
          isDecValid := false;
        }
      }
    }
  }

  // ---------- what a valid declaration is ----------

  ghost predicate IsMeld(cards: seq<Card>, wild: Face) {
    |cards| >= 3 && (IsImpureSequence(Faces(cards), wild) || IsSet(Faces(cards), wild))
  }

  ghost predicate AllMelds(groups: seq<Group>, wild: Face) {
    forall i :: 0 <= i < |groups| ==> IsMeld(groups[i].cards, wild)
  }

  /** Four cards have a suit each; what is longer must be a sequence. */
  ghost predicate ShortOrSequence(cards: seq<Card>, wild: Face) {
    |cards| <= 4 || IsImpureSequence(Faces(cards), wild)
  }

  ghost predicate NoLongSet(groups: seq<Group>, wild: Face) {
    forall i :: 0 <= i < |groups| ==> ShortOrSequence(groups[i].cards, wild)
  }

  /** How many of the groups are sequences of three and more cards. */
  ghost function PureSequenceCount(groups: seq<Group>): nat {
    if groups == [] then 0 else
      var last := groups[|groups| - 1].cards;
      PureSequenceCount(groups[..|groups| - 1]) + if |last| >= 3 && IsPureSequence(Faces(last)) then 1 else 0
  }

  ghost function SequenceCount(groups: seq<Group>, wild: Face): nat {
    if groups == [] then 0 else
      var last := groups[|groups| - 1].cards;
      SequenceCount(groups[..|groups| - 1], wild) + if |last| >= 3 && IsImpureSequence(Faces(last), wild) then 1 else 0
  }

  ghost predicate HasSequences(groups: seq<Group>, wild: Face) {
    PureSequenceCount(groups) >= 1 && SequenceCount(groups, wild) >= 2
  }

  /** How many groups that get no label of their own came with this one. */
  ghost function Stale(groups: seq<Group>, wild: Face, state: GroupState): nat {
    if groups == [] then 0 else
      var last := groups[|groups| - 1];
      Stale(groups[..|groups| - 1], wild, state)
      + if Kind(last.cards, wild) == Unlabelled && last.groupState == Labelled(state) then 1 else 0
  }

  /** The same numbers of sequences, counting groups that only came labelled as one. */
  ghost predicate HasOrClaimsSequences(groups: seq<Group>, wild: Face) {
    && PureSequenceCount(groups) + Stale(groups, wild, PureSequence) >= 1
    && SequenceCount(groups, wild) + Stale(groups, wild, PureSequence) + Stale(groups, wild, ImpureSequence) >= 2
  }

  /** The cards are printed, no group is longer than a hand of 13, and the wild card is no joker. */
  ghost predicate Dealt(groups: seq<Group>, wild: Face) {
    wild.rank != 0 && forall i :: 0 <= i < |groups| ==> |groups[i].cards| <= 13 && AllPrinted(Faces(groups[i].cards))
  }

  lemma KindIsExact(cards: seq<Card>, wild: Face)
    requires wild.rank != 0 && |cards| <= 13 && AllPrinted(Faces(cards))
    ensures Kind(cards, wild) != Unlabelled && ShortOrSequence(cards, wild) <==> IsMeld(cards, wild)
    ensures Kind(cards, wild) == Labelled(PureSequence) <==> |cards| >= 3 && IsPureSequence(Faces(cards))
    ensures Kind(cards, wild) in {Labelled(PureSequence), Labelled(ImpureSequence)} <==>
              |cards| >= 3 && IsImpureSequence(Faces(cards), wild)
    ensures Kind(cards, wild) == Unlabelled <==>
              |cards| < 3 || (!IsImpureSequence(Faces(cards), wild) && !SetVerdict(Faces(cards), wild))
  {
    hide PureVerdict, ImpureVerdict, SetVerdict, IsPureSequence, IsImpureSequence, IsSet;
    if |cards| >= 3 {
      PureExact(Faces(cards));
      ImpureExactUnlessTwoAces(Faces(cards), wild);
      SetExactUpToFour(Faces(cards), wild);
      if IsPureSequence(Faces(cards)) {
        PureMeansImpure(Faces(cards), wild);
      }
    }
  }

  /** After labelling, the labels count the sequences and the left-over labels. */
  lemma {:induction false} LabelsCount(groups: seq<Group>, wild: Face)
    requires Dealt(groups, wild)
    ensures CountLabel(RelabelAll(groups, wild), PureSequence)
            == PureSequenceCount(groups) + Stale(groups, wild, PureSequence)
    ensures CountLabel(RelabelAll(groups, wild), PureSequence) + CountLabel(RelabelAll(groups, wild), ImpureSequence)
         == SequenceCount(groups, wild) + Stale(groups, wild, PureSequence) + Stale(groups, wild, ImpureSequence)
  {
    hide Kind, IsPureSequence, IsImpureSequence, IsMeld, ShortOrSequence, SetVerdict;
    if groups != [] {
      var n := |groups| - 1;
      LabelsCount(groups[..n], wild);
      KindIsExact(groups[n].cards, wild);
      assert RelabelAll(groups, wild)[..n] == RelabelAll(groups[..n], wild);
    }
  }

  /** When every group gets a label of its own, nothing is left over. */
  lemma {:induction false} NothingStale(groups: seq<Group>, wild: Face, state: GroupState)
    requires forall i :: 0 <= i < |groups| && Kind(groups[i].cards, wild) == Unlabelled ==>
        groups[i].groupState != Labelled(state)
    ensures Stale(groups, wild, state) == 0
  {
    hide Kind;
    if groups != [] {
      NothingStale(groups[..|groups| - 1], wild, state);
    }
  }

  /**
   * A declaration is valid and has no set of more than four cards exactly when all groups are melds, at least one is a
   * pure sequence and at least two are sequences, whatever labels the groups came with.
   */
  lemma DeclarationExact(groups: seq<Group>, wild: Face)
    requires Dealt(groups, wild)
    ensures var labelled := RelabelAll(groups, wild);
            AllValid(labelled) && EnoughSequences(labelled) && NoLongSet(groups, wild) <==>
            AllMelds(groups, wild) && HasSequences(groups, wild)
  {
    hide Kind, IsMeld, PureSequenceCount, SequenceCount, CountLabel, ShortOrSequence, SetVerdict, IsImpureSequence,
         IsPureSequence;
    var labelled := RelabelAll(groups, wild);
    forall i | 0 <= i < |groups|
      ensures labelled[i].valid && ShortOrSequence(groups[i].cards, wild) <==> IsMeld(groups[i].cards, wild)
      ensures labelled[i].valid <==> Kind(groups[i].cards, wild) != Unlabelled
    {
      KindIsExact(groups[i].cards, wild);
    }
    if AllValid(labelled) {
      assert forall i :: 0 <= i < |groups| ==> labelled[i].valid;
      NothingStale(groups, wild, PureSequence);
      NothingStale(groups, wild, ImpureSequence);
      LabelsCount(groups, wild);
    } else {
      var i :| 0 <= i < |labelled| && !labelled[i].valid;
      assert !IsMeld(groups[i].cards, wild);
    }
  }

  /** The stored verdict on the sequences counts left-over labels, and this is exactly when it is right. */
  lemma StoredVerdict(groups: seq<Group>, wild: Face)
    requires Dealt(groups, wild)
    ensures EnoughSequences(RelabelAll(groups, wild)) <==> HasOrClaimsSequences(groups, wild)
    ensures (EnoughSequences(RelabelAll(groups, wild)) <==> HasSequences(groups, wild)) <==>
            || HasSequences(groups, wild)
            || PureSequenceCount(groups) + Stale(groups, wild, PureSequence) == 0
            || SequenceCount(groups, wild) + Stale(groups, wild, PureSequence) + Stale(groups, wild, ImpureSequence) < 2
  {
    hide PureSequenceCount, SequenceCount, CountLabel, Stale;
    LabelsCount(groups, wild);
  }

  /** In particular it is right when no such label is left over. */
  lemma SequencesExactWithoutStaleLabels(groups: seq<Group>, wild: Face)
    requires Dealt(groups, wild)
    requires forall i :: 0 <= i < |groups| && Kind(groups[i].cards, wild) == Unlabelled ==>
               groups[i].groupState !in {Labelled(PureSequence), Labelled(ImpureSequence)}
    ensures EnoughSequences(RelabelAll(groups, wild)) <==> HasSequences(groups, wild)
  {
    hide Kind, PureSequenceCount, SequenceCount, CountLabel, Stale, EnoughSequences;
    NothingStale(groups, wild, PureSequence);
    NothingStale(groups, wild, ImpureSequence);
    StoredVerdict(groups, wild);
  }

  // ---------- the score ----------

  function Points(f: Face): int {
    if f.rank in {11, 12, 13, 14} then 10 else f.rank
  }

  function PointSum(faces: seq<Face>): int {
    if faces == [] then 0 else PointSum(faces[..|faces| - 1]) + Points(faces[|faces| - 1])
  }

  predicate IsCounted(group: Group, isDecValid: bool) {
    if isDecValid then !group.valid else !(group.groupState == Labelled(PureSequence) && group.valid)
  }

  function HandPoints(groups: seq<Group>, wild: Face, isDecValid: bool): int {
    if groups == [] then 0 else
      var last := groups[|groups| - 1];
      HandPoints(groups[..|groups| - 1], wild, isDecValid)
      + if IsCounted(last, isDecValid) then PointSum(Normals(Faces(last.cards), wild)) else 0
  }

  function Score(groups: seq<Group>, wild: Face, isDecValid: bool): int {
    var total := HandPoints(groups, wild, isDecValid);
    if total > MAX_SCORE then MAX_SCORE else total
  }

  method CalculateScore(groups: seq<Group>, wild: Face, isDecValid: bool) returns (score: int)
    ensures score == Score(groups, wild, isDecValid)
  {
    var totalScore := 0;
    for i := 0 to |groups|
      invariant totalScore == HandPoints(groups[..i], wild, isDecValid)
    {
      assert groups[..i + 1][..i] == groups[..i];
      if IsCounted(groups[i], isDecValid) {
        var _, cards := SplitFillers(Faces(groups[i].cards), wild);
        ghost var before := totalScore;
        for k := 0 to |cards|
          invariant totalScore == before + PointSum(cards[..k])
        {
          assert cards[..k + 1][..k] == cards[..k];
          totalScore := totalScore + if cards[k].rank in {11, 12, 13, 14} then 10 else cards[k].rank;
        }
        assert cards[..|cards|] == cards;
      }
    }
    assert groups[..|groups|] == groups;
    return if totalScore > MAX_SCORE then MAX_SCORE else totalScore;
  }

  lemma {:induction false} PointsArePositive(faces: seq<Face>)
    requires forall f <- faces :: 2 <= f.rank <= 14
    ensures PointSum(faces) >= 2 * |faces|
  {
    if faces != [] {
      PointsArePositive(faces[..|faces| - 1]);
    }
  }

  /** Points are never negative, and a failed declaration never counts fewer of them. */
  lemma {:induction false} HandPointsGrow(groups: seq<Group>, wild: Face)
    requires forall i :: 0 <= i < |groups| ==> AllPrinted(Faces(groups[i].cards))
    ensures 0 <= HandPoints(groups, wild, true) <= HandPoints(groups, wild, false)
  {
    hide AllPrinted;
    if groups != [] {
      var n := |groups| - 1;
      HandPointsGrow(groups[..n], wild);
      FillersAndNormals(Faces(groups[n].cards), wild);
      PointsArePositive(Normals(Faces(groups[n].cards), wild));
    }
  }

  /** A score lies in 0..80 and does not drop when the declaration turns out invalid. */
  lemma ScoreInRange(groups: seq<Group>, wild: Face)
    requires forall i :: 0 <= i < |groups| ==> AllPrinted(Faces(groups[i].cards))
    ensures 0 <= Score(groups, wild, true) <= Score(groups, wild, false) <= MAX_SCORE
  {
    HandPointsGrow(groups, wild);
  }

  /** A hand declared validly scores nothing; left-over labels cannot change that. */
  lemma {:induction false} ValidHandScoresNothing(groups: seq<Group>, wild: Face)
    requires AllValid(groups)
    ensures Score(groups, wild, true) == 0
  {
    if groups != [] {
      ValidHandScoresNothing(groups[..|groups| - 1], wild);
    }
  }
}
