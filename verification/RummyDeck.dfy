/** Dealing, drawing, discarding and arranging: where the cards of a rummy table are. */
module RummyDeck {
  import opened RummyMelds
  import opened RummyDeclaration
  import Lists = Sequences

  type UserId = nat
  type PlayerId = nat

  const CARDS_PER_PLAYER: nat := 13

  datatype RePlayer = RePlayer(
    userId: UserId, playerId: PlayerId, cards: seq<Card>, cardsGroups: seq<Group>, isDrawn: bool, turnNo: nat)

  datatype GameStatus = Dealing | Drawing | Discarding | Declaring

  datatype Response =
    | Ok | NotOnTable | NotYourTurn | InvalidCard                                    // drawing
    | DrawFirst | NotDiscardState | InvalidHand | InvalidDiscard                     // discarding
    | CardsMismatch                                                                  // arranging

  datatype Event =
    | Draw(userId: UserId, card: Card)
    | Discard(userId: UserId, card: Card, next: PlayerId)
    | Arrange(userId: UserId, groups: seq<Group>)
    | Turn(status: GameStatus)

  // ---------- counting cards ----------

  /** How many copies of a card the hands hold. */
  ghost function Held(players: seq<RePlayer>, c: Card): nat {
    if players == [] then 0 else Held(players[..|players| - 1], c) + multiset(players[|players| - 1].cards)[c]
  }

  lemma {:induction false} HandChanges(players: seq<RePlayer>, i: nat, p: RePlayer, c: Card)
    requires i < |players|
    ensures Held(players[i := p], c) == Held(players, c) - multiset(players[i].cards)[c] + multiset(p.cards)[c]
  {
    var n := |players| - 1;
    if i < n {
      HandChanges(players[..n], i, p, c);
      assert players[i := p][..n] == players[..n][i := p];
    } else {
      assert players[i := p][..n] == players[..n];
    }
  }

  ghost predicate GroupsFromHand(p: RePlayer) {
    multiset(GroupedCards(p.cardsGroups)) <= multiset(p.cards)
  }

  // ---------- removing a card ----------

  function FirstIndex(cards: seq<Card>, card: Card): (i: nat)
    ensures i <= |cards|
    ensures i < |cards| <==> card in cards
    ensures i < |cards| ==> cards[i] == card
  {
    Lists.IndexWhere(cards, (c: Card) => c == card)
  }

  /** indexOf and splice: the first occurrence goes, if there is one. */
  function RemoveFirst(cards: seq<Card>, card: Card): (r: seq<Card>)
  {
    var i := FirstIndex(cards, card);
    if i < |cards| then cards[..i] + cards[i + 1..] else cards
  }

  lemma RemoveFirstCounts(cards: seq<Card>, card: Card, c: Card)
    ensures multiset(RemoveFirst(cards, card))[c] == multiset(cards)[c] - if c == card && card in cards then 1 else 0
    ensures |RemoveFirst(cards, card)| == |cards| - if card in cards then 1 else 0
  {
    var i := FirstIndex(cards, card);
    if i < |cards| {
      assert cards == cards[..i] + [card] + cards[i + 1..];
    }
  }

  function RemoveFromGroups(groups: seq<Group>, card: Card): (r: seq<Group>)
    ensures |r| == |groups|
    ensures forall i {:trigger r[i]} :: 0 <= i < |r| ==> r[i] == groups[i].(cards := RemoveFirst(groups[i].cards, card))
  {
    seq(|groups|, i requires 0 <= i < |groups| => groups[i].(cards := RemoveFirst(groups[i].cards, card)))
  }

  /** Every group gives the card up once, so all groups together give it up at least once if any holds it. */
  lemma {:induction false} GroupsGiveUp(groups: seq<Group>, card: Card, c: Card)
    ensures multiset(GroupedCards(RemoveFromGroups(groups, card)))[c] <= multiset(GroupedCards(groups))[c]
    ensures card in GroupedCards(groups) ==>
              multiset(GroupedCards(RemoveFromGroups(groups, card)))[card] < multiset(GroupedCards(groups))[card]
  {
    if groups != [] {
      var n := |groups| - 1;
      GroupsGiveUp(groups[..n], card, c);
      GroupsGiveUp(groups[..n], card, card);
      assert RemoveFromGroups(groups, card)[..n] == RemoveFromGroups(groups[..n], card);
      RemoveFirstCounts(groups[n].cards, card, c);
      RemoveFirstCounts(groups[n].cards, card, card);
    }
  }

  // ---------- dealing ----------

  function OfSuit(cards: seq<Card>, suit: Suit): seq<Card> {
    if cards == [] then [] else
      OfSuit(cards[..|cards| - 1], suit) + if cards[|cards| - 1].face.suit == suit then [cards[|cards| - 1]] else []
  }

  /** The hand sorted into its suits; the joker test there never applies, so jokers stay with spades and diamonds. */
  function GetSortedCards(cards: seq<Card>): seq<Group> {
    [Group(OfSuit(cards, H), Unlabelled, false), Group(OfSuit(cards, D), Unlabelled, false),
     Group(OfSuit(cards, C), Unlabelled, false), Group(OfSuit(cards, S), Unlabelled, false)]
  }

  lemma {:induction false} OfSuitCounts(cards: seq<Card>, suit: Suit, c: Card)
    ensures multiset(OfSuit(cards, suit))[c] == if c.face.suit == suit then multiset(cards)[c] else 0
  {
    if cards != [] {
      var n := |cards| - 1;
      OfSuitCounts(cards[..n], suit, c);
      assert cards == cards[..n] + [cards[n]];
    }
  }

  /** The groups dealt are the hand, arranged by suit. */
  lemma SortedCardsAreTheHand(cards: seq<Card>)
    ensures multiset(GroupedCards(GetSortedCards(cards))) == multiset(cards)
  {
    var g := GetSortedCards(cards);
    FourGroups(g);
    var all := GroupedCards(g);
    hide OfSuit, GetSortedCards, GroupedCards;
    forall c: Card
      ensures multiset(all)[c] == multiset(cards)[c]
    {
      OfSuitCounts(cards, H, c);
      OfSuitCounts(cards, D, c);
      OfSuitCounts(cards, C, c);
      OfSuitCounts(cards, S, c);
    }
  }

  lemma FourGroups(g: seq<Group>)
    requires |g| == 4
    ensures GroupedCards(g) == g[0].cards + g[1].cards + g[2].cards + g[3].cards
  {
    assert g[..3][..2] == g[..2] && g[..2][..1] == g[..1] && g[..1][..0] == [];
    assert GroupedCards(g[..1]) == g[0].cards;
    assert GroupedCards(g[..2]) == g[0].cards + g[1].cards;
    assert GroupedCards(g[..3]) == g[0].cards + g[1].cards + g[2].cards;
  }

  ghost predicate FreshlyDealt(p: RePlayer, seat: (UserId, PlayerId)) {
    && p.userId == seat.0 && p.playerId == seat.1 && |p.cards| == CARDS_PER_PLAYER && !p.isDrawn
    && multiset(GroupedCards(p.cardsGroups)) == multiset(p.cards)
  }

  method DealHands(shuffledCards: seq<Card>, seats: seq<(UserId, PlayerId)>)
    returns (players: seq<RePlayer>, rest: seq<Card>)
    requires |shuffledCards| > CARDS_PER_PLAYER * |seats|
    ensures rest != [] && forall c :: Held(players, c) + multiset(rest)[c] == multiset(shuffledCards)[c]
    ensures |players| == |seats| && forall i :: 0 <= i < |players| ==> FreshlyDealt(players[i], seats[i])
  {
    hide GroupedCards, GetSortedCards, Held;
    players, rest := [], shuffledCards;
    NobodyHolds();
    for n := 0 to |seats|
      invariant |players| == n && |rest| == |shuffledCards| - CARDS_PER_PLAYER * n
      invariant forall c :: Held(players, c) + multiset(rest)[c] == multiset(shuffledCards)[c]
      invariant forall i :: 0 <= i < n ==> FreshlyDealt(players[i], seats[i])
    {
      var hand := rest[..CARDS_PER_PLAYER];
      SortedCardsAreTheHand(hand);
      var player := RePlayer(seats[n].0, seats[n].1, hand, GetSortedCards(hand), false, 0);
      assert rest == hand + rest[CARDS_PER_PLAYER..];
      forall c: Card
        ensures Held(players + [player], c) + multiset(rest[CARDS_PER_PLAYER..])[c] == multiset(shuffledCards)[c]
      {
        OneMoreHand(players, player, c);
        assert multiset(rest)[c] == multiset(hand)[c] + multiset(rest[CARDS_PER_PLAYER..])[c];
      }
      players := players + [player];
      rest := rest[CARDS_PER_PLAYER..];
    }
  }

  lemma NobodyHolds()
    ensures forall c :: Held([], c) == 0
  {
  }

  lemma OneMoreHand(players: seq<RePlayer>, p: RePlayer, c: Card)
    ensures Held(players + [p], c) == Held(players, c) + multiset(p.cards)[c]
  {
    assert (players + [p])[..|players|] == players;
  }

  // ---------- finding players and cards ----------

  /** The position of the first player with the user id, or the number of players. */
  function PlayerIndex(players: seq<RePlayer>, userId: UserId): (i: nat)
    ensures i <= |players| && (forall j :: 0 <= j < i ==> players[j].userId != userId)
    ensures i < |players| ==> players[i].userId == userId
  {
    Lists.IndexWhere(players, (p: RePlayer) => p.userId == userId)
  }

  predicate IsTop(cards: seq<Card>, card: Card) {
    cards != [] && cards[|cards| - 1] == card
  }

  predicate IsHead(cards: seq<Card>, card: Card) {
    cards != [] && cards[0] == card
  }

  function InDecks(open: seq<Card>, closed: seq<Card>, c: Card): nat {
    multiset(open)[c] + multiset(closed)[c]
  }

  lemma DecksGive(open: seq<Card>, closed: seq<Card>, newOpen: seq<Card>, newClosed: seq<Card>, card: Card, c: Card)
    requires (newOpen + [card] == open && newClosed == closed) || (newOpen == open && [card] + newClosed == closed)
    ensures InDecks(open, closed, c) == InDecks(newOpen, newClosed, c) + if c == card then 1 else 0
  {
  }

  lemma DecksTake(open: seq<Card>, closed: seq<Card>, newOpen: seq<Card>, newClosed: seq<Card>, card: Card, c: Card)
    requires if closed == [] then newOpen + newClosed == open + [card]
             else newOpen == open + [card] && newClosed == closed
    ensures InDecks(newOpen, newClosed, c) == InDecks(open, closed, c) + if c == card then 1 else 0
  {
    if closed == [] {
      assert multiset(newOpen + newClosed)[c] == multiset(open + [card])[c];
    }
  }

  lemma GroupsStayInHand(p: RePlayer, q: RePlayer, card: Card)
    requires q.cards == p.cards + [card] && q.cardsGroups == p.cardsGroups && GroupsFromHand(p)
    ensures GroupsFromHand(q) && multiset(q.cards) == multiset(p.cards) + multiset{card}
  {
  }

  function AfterDraw(p: RePlayer, card: Card): RePlayer {
    p.(cards := p.cards + [card], isDrawn := true)
  }

  function AfterDiscard(p: RePlayer, card: Card): RePlayer {
    p.(cards := RemoveFirst(p.cards, card), cardsGroups := RemoveFromGroups(p.cardsGroups, card),
       isDrawn := false, turnNo := p.turnNo + 1)
  }

  lemma DiscardKeepsGroups(p: RePlayer, card: Card)
    requires GroupsFromHand(p)
    ensures GroupsFromHand(AfterDiscard(p, card))
  {
    var q := AfterDiscard(p, card);
    forall c: Card
      ensures multiset(GroupedCards(q.cardsGroups))[c] <= multiset(q.cards)[c]
    {
      GroupsGiveUp(p.cardsGroups, card, c);
      RemoveFirstCounts(p.cards, card, c);
      assert multiset(GroupedCards(p.cardsGroups))[c] <= multiset(p.cards)[c];
    }
  }

  /** What a draw gives to the hand it takes from the decks. */
  lemma DrawKeepsCopies(players: seq<RePlayer>, i: nat, drawn: RePlayer, open: seq<Card>, closed: seq<Card>,
                        newOpen: seq<Card>, newClosed: seq<Card>, card: Card)
    requires i < |players| && multiset(drawn.cards) == multiset(players[i].cards) + multiset{card}
    requires (newOpen + [card] == open && newClosed == closed) || (newOpen == open && [card] + newClosed == closed)
    ensures forall c :: Held(players[i := drawn], c) + InDecks(newOpen, newClosed, c)
                     == Held(players, c) + InDecks(open, closed, c)
  {
    hide Held, InDecks;
    forall c: Card
      ensures Held(players[i := drawn], c) + InDecks(newOpen, newClosed, c)
              == Held(players, c) + InDecks(open, closed, c)
    {
      HandChanges(players, i, drawn, c);
      DecksGive(open, closed, newOpen, newClosed, card, c);
    }
  }

  /** What a discard takes from the hand it gives to the decks. */
  lemma DiscardKeepsCopies(players: seq<RePlayer>, i: nat, discarded: RePlayer, open: seq<Card>, closed: seq<Card>,
                           newOpen: seq<Card>, newClosed: seq<Card>, card: Card)
    requires i < |players| && card in players[i].cards && discarded.cards == RemoveFirst(players[i].cards, card)
    requires if closed == [] then newOpen + newClosed == open + [card]
             else newOpen == open + [card] && newClosed == closed
    ensures forall c :: Held(players[i := discarded], c) + InDecks(newOpen, newClosed, c)
                     == Held(players, c) + InDecks(open, closed, c)
  {
    hide Held, InDecks, RemoveFirst;
    forall c: Card
      ensures Held(players[i := discarded], c) + InDecks(newOpen, newClosed, c)
              == Held(players, c) + InDecks(open, closed, c)
    {
      HandChanges(players, i, discarded, c);
      RemoveFirstCounts(players[i].cards, card, c);
      DecksTake(open, closed, newOpen, newClosed, card, c);
    }
  }

  // ---------- the table ----------

  class ReTable {
    var players: seq<RePlayer>
    var currentTurn: PlayerId
    var gameStatus: GameStatus
    var turnNo: nat
    var openDeckCards: seq<Card>
    var closedDeckCards: seq<Card>

    ghost predicate Valid()
      reads this`players
    {
      && (forall i, j :: 0 <= i < j < |players| ==> players[i].userId != players[j].userId)
      && (forall i :: 0 <= i < |players| ==> GroupsFromHand(players[i]))
    }

    /** How many copies of a card are in the hands and in the two decks. */
    ghost function Copies(c: Card): nat
      reads this`players, this`openDeckCards, this`closedDeckCards
    {
      Held(players, c) + InDecks(openDeckCards, closedDeckCards, c)
    }

    /** Thirteen cards each, one card open, the rest closed. */
    constructor (shuffledCards: seq<Card>, seats: seq<(UserId, PlayerId)>, firstTurn: PlayerId)
      requires |shuffledCards| > CARDS_PER_PLAYER * |seats|
      requires forall i, j :: 0 <= i < j < |seats| ==> seats[i].0 != seats[j].0
      ensures Valid() && forall c :: Copies(c) == multiset(shuffledCards)[c]
      ensures |players| == |seats| && forall i :: 0 <= i < |players| ==> FreshlyDealt(players[i], seats[i])
      ensures |openDeckCards| == 1 && gameStatus == Dealing && currentTurn == firstTurn
    {
      currentTurn, gameStatus, turnNo := firstTurn, Dealing, 0;
      var dealt, rest := DealHands(shuffledCards, seats);
      players, openDeckCards, closedDeckCards := dealt, [rest[0]], rest[1..];
      new;
      assert rest == [rest[0]] + rest[1..];
    }

    /**
     * The top of the open deck or else the head of the closed deck goes to the hand; neither status nor isDrawn is
     * asked.
     */
    method DrawCard(userId: UserId, card: Card) returns (response: Response)
      requires Valid()
      modifies this
      ensures Valid() && forall c :: Copies(c) == old(Copies(c))
      ensures response != Ok ==> unchanged(this)
      ensures var i := PlayerIndex(old(players), userId);
              response == if i == |old(players)| then NotOnTable
                          else if old(players)[i].playerId != old(currentTurn) then NotYourTurn
                          else if !IsTop(old(openDeckCards), card) && !IsHead(old(closedDeckCards), card)
                          then InvalidCard
                          else Ok
      ensures response == Ok ==>
                var i := PlayerIndex(old(players), userId);
                && players == old(players)[i := AfterDraw(old(players)[i], card)]
                && gameStatus == Discarding && currentTurn == old(currentTurn) && turnNo == old(turnNo)
                && if IsTop(old(openDeckCards), card) then
                     openDeckCards + [card] == old(openDeckCards) && closedDeckCards == old(closedDeckCards)
                   else openDeckCards == old(openDeckCards) && [card] + closedDeckCards == old(closedDeckCards)
    {
      hide Held, GroupsFromHand, IsTop, IsHead, InDecks;
      var i := PlayerIndex(players, userId);
      if i == |players| {
        return NotOnTable;
      }
      if players[i].playerId != currentTurn {
        return NotYourTurn;
      }
      var taken := TakeFromDecks(card);
      if !taken {
        return InvalidCard;
      }
      var drawn := AfterDraw(players[i], card);
      GroupsStayInHand(players[i], drawn, card);
      DrawKeepsCopies(players, i, drawn, old(openDeckCards), old(closedDeckCards), openDeckCards, closedDeckCards,
                      card);
      players := players[i := drawn];
      gameStatus := Discarding;
      return Ok;
    }

    method TakeFromDecks(card: Card) returns (taken: bool)
      modifies this`openDeckCards, this`closedDeckCards
      ensures taken <==> IsTop(old(openDeckCards), card) || IsHead(old(closedDeckCards), card)
      ensures !taken ==> openDeckCards == old(openDeckCards) && closedDeckCards == old(closedDeckCards)
      ensures taken ==>
                if IsTop(old(openDeckCards), card) then
                     openDeckCards + [card] == old(openDeckCards) && closedDeckCards == old(closedDeckCards)
                   else openDeckCards == old(openDeckCards) && [card] + closedDeckCards == old(closedDeckCards)
    {
      var openDeckLength := |openDeckCards|;
      if openDeckLength == 0 || card != openDeckCards[openDeckLength - 1] {
        if closedDeckCards != [] && card == closedDeckCards[0] {
          closedDeckCards := closedDeckCards[1..];
          assert [card] + closedDeckCards == old(closedDeckCards);
        } else {
          return false;
        }
      } else {
        openDeckCards := openDeckCards[..openDeckLength - 1];
        assert openDeckCards + [card] == old(openDeckCards);
      }
      return true;
    }

    /** The card leaves the hand and every group for the open deck; an empty closed deck is refilled from it. */
    method DiscardCard(userId: UserId, card: Card, nextPlayer: PlayerId) returns (response: Response)
      requires Valid()
      modifies this
      ensures Valid() && forall c :: Copies(c) == old(Copies(c))
      ensures response != Ok ==> unchanged(this)
      ensures var i := PlayerIndex(old(players), userId);
              response == if i == |old(players)| then NotOnTable
                          else if old(players)[i].playerId != old(currentTurn) then NotYourTurn
                          else if !old(players)[i].isDrawn then DrawFirst
                          else if old(gameStatus) != Discarding then NotDiscardState
                          else if |old(players)[i].cards| != CARDS_PER_PLAYER + 1 then InvalidHand
                          else if card !in old(players)[i].cards then InvalidDiscard
                          else Ok
      ensures response == Ok ==>
                var i := PlayerIndex(old(players), userId);
                && players == old(players)[i := AfterDiscard(old(players)[i], card)]
                && currentTurn == nextPlayer && turnNo == old(turnNo) + 1 && gameStatus == old(gameStatus)
                && if old(closedDeckCards) == [] then
                     |openDeckCards| == 1 && openDeckCards + closedDeckCards == old(openDeckCards) + [card]
                   else openDeckCards == old(openDeckCards) + [card] && closedDeckCards == old(closedDeckCards)
      ensures response == Ok && old(|openDeckCards| + |closedDeckCards|) >= 1 ==> closedDeckCards != []
    {
      hide Held, GroupsFromHand, RemoveFirst, RemoveFromGroups, InDecks;
      var i := PlayerIndex(players, userId);
      if i == |players| {
        return NotOnTable;
      }
      if players[i].playerId != currentTurn {
        return NotYourTurn;
      }
      if !players[i].isDrawn {
        return DrawFirst;
      }
      if gameStatus != Discarding {
        return NotDiscardState;
      }
      if |players[i].cards| != CARDS_PER_PLAYER + 1 {
        return InvalidHand;
      }
      if card !in players[i].cards {
        return InvalidDiscard;
      }
      var discarded := AfterDiscard(players[i], card);
      DiscardKeepsGroups(players[i], card);
      currentTurn := nextPlayer;
      turnNo := turnNo + 1;
      PutOnOpenDeck(card);
      DiscardKeepsCopies(players, i, discarded, old(openDeckCards), old(closedDeckCards), openDeckCards,
                         closedDeckCards, card);
      players := players[i := discarded];
      return Ok;
    }

    method PutOnOpenDeck(card: Card)
      modifies this`openDeckCards, this`closedDeckCards
      ensures if old(closedDeckCards) == [] then
                |openDeckCards| == 1 && openDeckCards + closedDeckCards == old(openDeckCards) + [card]
              else openDeckCards == old(openDeckCards) + [card] && closedDeckCards == old(closedDeckCards)
    {
      openDeckCards := openDeckCards + [card];
      if |closedDeckCards| == 0 && |openDeckCards| > 0 {
        var rest := openDeckCards;
        openDeckCards := [];
        var openCard := rest[0];
        rest := rest[1..];
        openDeckCards := openDeckCards + [openCard];
        closedDeckCards := rest;
        assert old(openDeckCards) + [card] == openDeckCards + closedDeckCards;
      }
    }

    /** validateCardsGroup: any arrangement of exactly the hand replaces the groups, labels and all. */
    method ValidateCardsGroup(userId: UserId, cardsGroup: seq<Group>) returns (response: Response)
      requires Valid()
      modifies this`players
      ensures Valid() && forall c :: Copies(c) == old(Copies(c))
      ensures var i := PlayerIndex(old(players), userId);
              && response == (if i == |old(players)| then NotOnTable
                              else if multiset(old(players)[i].cards) != multiset(GroupedCards(cardsGroup))
                              then CardsMismatch
                              else Ok)
              && players == (if response == Ok then old(players)[i := old(players)[i].(cardsGroups := cardsGroup)]
                             else old(players))
    {
      hide Held, GroupedCards;
      var i := PlayerIndex(players, userId);
      if i == |players| {
        return NotOnTable;
      }
      var userCards := FlattenGroups(cardsGroup);
      if |players[i].cards| != |userCards| {
        assert |multiset(players[i].cards)| != |multiset(userCards)|;
        return CardsMismatch;
      }
      // Two lists are equal once sorted exactly when they hold the same cards equally often.
      if multiset(players[i].cards) != multiset(userCards) {
        return CardsMismatch;
      }
      var arranged := players[i].(cardsGroups := cardsGroup);
      forall c: Card
        ensures Held(players[i := arranged], c) == Held(players, c)
      {
        HandChanges(players, i, arranged, c);
      }
      players := players[i := arranged];
      return Ok;
    }
  }

  method FlattenGroups(cardsGroup: seq<Group>) returns (userCards: seq<Card>)
    ensures userCards == GroupedCards(cardsGroup)
  {
    userCards := [];
    for g := 0 to |cardsGroup|
      invariant userCards == GroupedCards(cardsGroup[..g])
    {
      assert cardsGroup[..g + 1][..g] == cardsGroup[..g];
      userCards := userCards + cardsGroup[g].cards;
    }
    assert cardsGroup[..|cardsGroup|] == cardsGroup;
  }

  // ---------- runs ----------

  /** A hand of more than 14 cards, which two draws in one turn make, is never discarded from again. */
  ghost predicate OverdrawnStay(before: seq<RePlayer>, after: seq<RePlayer>) {
    && |after| == |before|
    && forall i :: 0 <= i < |before| && |before[i].cards| > CARDS_PER_PLAYER + 1 ==>
      |after[i].cards| >= |before[i].cards|
  }

  /** What one request does to the players. */
  ghost predicate PlayersStep(before: seq<RePlayer>, after: seq<RePlayer>, event: Event, response: Response) {
    if response != Ok || event.Turn? then after == before else
      var i := PlayerIndex(before, event.userId);
      && i < |before|
      && match event
         case Draw(_, card) => after == before[i := AfterDraw(before[i], card)]
         case Discard(_, card, _) =>
           && before[i].isDrawn && |before[i].cards| == CARDS_PER_PLAYER + 1 && card in before[i].cards
           && after == before[i := AfterDiscard(before[i], card)]
         case Arrange(_, groups) => after == before[i := before[i].(cardsGroups := groups)]
  }

  ghost predicate PlayersRun(trace: seq<seq<RePlayer>>, events: seq<Event>, responses: seq<Response>) {
    && |trace| == |events| + 1 && |responses| == |events|
    && forall n :: 0 <= n < |events| ==> PlayersStep(trace[n], trace[n + 1], events[n], responses[n])
  }

  /** Thirteen cards, or fourteen between the draw and the discard. */
  ghost predicate HandsInStep(players: seq<RePlayer>) {
    forall i :: 0 <= i < |players| ==> |players[i].cards| == CARDS_PER_PLAYER + if players[i].isDrawn then 1 else 0
  }

  /** Whoever draws has not drawn yet. */
  ghost predicate DrawsOnce(players: seq<RePlayer>, event: Event, response: Response) {
    event.Draw? && response == Ok ==>
      var i := PlayerIndex(players, event.userId);
      i < |players| && !players[i].isDrawn
  }

  lemma StepKeepsHands(before: seq<RePlayer>, after: seq<RePlayer>, event: Event, response: Response)
    requires HandsInStep(before) && PlayersStep(before, after, event, response)
    ensures HandsInStep(after) <==> DrawsOnce(before, event, response)
  {
    hide RemoveFromGroups, RemoveFirst;
    if response == Ok && !event.Turn? {
      var i := PlayerIndex(before, event.userId);
      if event.Discard? {
        RemoveFirstCounts(before[i].cards, event.card, event.card);
      }
      if event.Draw? && before[i].isDrawn {
        assert |after[i].cards| == CARDS_PER_PLAYER + 2;
      }
    }
  }

  /** All hands stay in step through a whole run exactly when nobody ever draws twice in a turn. */
  lemma {:induction false} HandsStayInStep(trace: seq<seq<RePlayer>>, events: seq<Event>, responses: seq<Response>)
    requires PlayersRun(trace, events, responses) && HandsInStep(trace[0])
    ensures (forall n :: 0 <= n < |trace| ==> HandsInStep(trace[n])) <==>
            (forall n :: 0 <= n < |events| ==> DrawsOnce(trace[n], events[n], responses[n]))
  {
    hide HandsInStep, DrawsOnce, PlayersStep;
    if events != [] {
      var m := |events| - 1;
      HandsStayInStep(trace[..m + 1], events[..m], responses[..m]);
      assert forall n :: 0 <= n < m + 1 ==> trace[..m + 1][n] == trace[n];
      assert PlayersStep(trace[m], trace[m + 1], events[m], responses[m]);
      if HandsInStep(trace[m]) {
        StepKeepsHands(trace[m], trace[m + 1], events[m], responses[m]);
      }
    }
  }

  /** Serves any list of requests, with the game status set in between by the other handlers. */
  method Serve(table: ReTable, events: seq<Event>) returns (responses: seq<Response>, ghost trace: seq<seq<RePlayer>>)
    requires table.Valid()
    modifies table
    ensures table.Valid() && forall c :: table.Copies(c) == old(table.Copies(c))
    ensures OverdrawnStay(old(table.players), table.players)
    ensures PlayersRun(trace, events, responses) && trace[0] == old(table.players) && trace[|events|] == table.players
  {
    hide Held, InDecks, GroupsFromHand, RemoveFirst, RemoveFromGroups, GroupedCards, IsTop, IsHead, PlayersStep;
    responses, trace := [], [table.players];
    for n := 0 to |events|
      invariant table.Valid() && forall c :: table.Copies(c) == old(table.Copies(c))
      invariant OverdrawnStay(old(table.players), table.players)
      invariant PlayersRun(trace, events[..n], responses) && trace[0] == old(table.players) && trace[n] == table.players
    {
      ghost var before := table.players;
      var response := ServeOne(table, events[n]);
      responses, trace := responses + [response], trace + [table.players];
    }
    assert events[..|events|] == events;
  }

  method ServeOne(table: ReTable, event: Event) returns (response: Response)
    requires table.Valid()
    modifies table
    ensures table.Valid() && forall c :: table.Copies(c) == old(table.Copies(c))
    ensures PlayersStep(old(table.players), table.players, event, response)
    ensures OverdrawnStay(old(table.players), table.players)
  {
    hide Held, InDecks, GroupsFromHand, RemoveFirst, RemoveFromGroups, GroupedCards, IsTop, IsHead;
    match event {
      case Draw(userId, card) => response := table.DrawCard(userId, card);
      case Discard(userId, card, next) => response := table.DiscardCard(userId, card, next);
      case Arrange(userId, groups) => response := table.ValidateCardsGroup(userId, groups);
      case Turn(status) => table.gameStatus, response := status, Ok;
    }
  }

  /** Drawing from the open and then from the closed deck in one turn makes a hand of fifteen, which cannot discard. */
  method DrawTwice(table: ReTable, userId: UserId, card: Card, next: PlayerId) returns (response: Response)
    requires table.Valid() && table.openDeckCards != [] && table.closedDeckCards != []
    requires var i := PlayerIndex(table.players, userId);
             i < |table.players| && table.players[i].playerId == table.currentTurn &&
                 |table.players[i].cards| == CARDS_PER_PLAYER
    modifies table
    ensures var i := PlayerIndex(old(table.players), userId);
            && |table.players| == old(|table.players|) && |table.players[i].cards| == CARDS_PER_PLAYER + 2
            && table.players[i].isDrawn && !HandsInStep(table.players)
    ensures response == InvalidHand
  {
    hide Held, InDecks, GroupsFromHand, RemoveFirst, RemoveFromGroups, GroupedCards;
    ghost var i := PlayerIndex(table.players, userId);
    var _ := table.DrawCard(userId, table.openDeckCards[|table.openDeckCards| - 1]);
    SamePlayerIndex(old(table.players), table.players, userId);
    label second:
    var _ := table.DrawCard(userId, table.closedDeckCards[0]);
    SamePlayerIndex(old@second(table.players), table.players, userId);
    response := table.DiscardCard(userId, card, next);
  }

  lemma SamePlayerIndex(players: seq<RePlayer>, others: seq<RePlayer>, userId: UserId)
    requires |players| == |others| && forall i :: 0 <= i < |players| ==> players[i].userId == others[i].userId
    ensures PlayerIndex(players, userId) == PlayerIndex(others, userId)
  {
  }
}
