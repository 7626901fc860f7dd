/** Shuffling, dealing and sorting the 52 cards of Call Break. */
module CallBreakDeal {
  import opened CallBreakCards
  import opened Options
  import opened Sequences

  const CARDS_PER_PLAYER: nat := 13

  function SuitOf(i: nat): Suit
    requires i < 4
  {
    if i == 0 then Heart else if i == 1 then Spade else if i == 2 then Diamond else Club
  }

  function CardOf(i: nat): Card
    requires i < 52
  {
    Card(SuitOf(i / 13), 2 + i % 13)
  }

  /** Hearts, spades, diamonds and clubs, each from 2 to ace. */
  function CardsDeck(): (deck: seq<Card>)
    ensures |deck| == 52 && forall i {:trigger deck[i]} :: 0 <= i < 52 ==> deck[i] == CardOf(i)
  {
    seq(52, i requires 0 <= i < 52 => CardOf(i))
  }

  lemma DeckIsFull(c: Card)
    ensures NoRepeats(CardsDeck())
    ensures c in CardsDeck() <==> IsRank(c)
  {
    forall i, j | 0 <= i < j < 52
      ensures CardsDeck()[i] != CardsDeck()[j]
    {
      assert CardsDeck()[i] == CardOf(i) && CardsDeck()[j] == CardOf(j);
    }
    if IsRank(c) {
      var suit := match c.suit case Heart => 0 case Spade => 1 case Diamond => 2 case Club => 3;
      var i := 13 * suit + (c.number - 2);
      assert i / 13 == suit && i % 13 == c.number - 2;
      assert CardsDeck()[i] == CardOf(i) == c;
    }
  }

  // ---------- shuffling ----------

  /** The random positions drawn for one shuffle: for each index one that is no greater. */
  ghost predicate IsDraws(draws: seq<nat>) {
    |draws| == 52 && forall i :: 0 <= i < 52 ==> draws[i] <= i
  }

  function Swapped<T>(cards: seq<T>, i: nat, j: nat): (r: seq<T>)
    requires i < |cards| && j < |cards|
    ensures multiset(r) == multiset(cards)
  {
    cards[i := cards[j]][j := cards[i]]
  }

  /** What the swaps from an index down to 1 make of the cards. */
  ghost function Shuffled(cards: seq<Card>, draws: seq<nat>, index: nat): (r: seq<Card>)
    requires |cards| == 52 && IsDraws(draws) && index < 52
    ensures |r| == 52
    decreases index
  {
    if index == 0 then cards else Shuffled(Swapped(cards, index, draws[index]), draws, index - 1)
  }

  lemma {:induction false} ShufflePermutes(cards: seq<Card>, draws: seq<nat>, index: nat)
    requires |cards| == 52 && IsDraws(draws) && index < 52
    ensures multiset(Shuffled(cards, draws, index)) == multiset(cards)
    decreases index
  {
    if index > 0 {
      var swapped := Swapped(cards, index, draws[index]);
      ShufflePermutes(swapped, draws, index - 1);
    }
  }

  ghost function ShuffledDeck(draws: seq<nat>): (r: seq<Card>)
    requires IsDraws(draws)
    ensures |r| == 52
  {
    Shuffled(CardsDeck(), draws, 51)
  }

  lemma ShuffleStep(cards: seq<Card>, draws: seq<nat>, index: nat)
    requires |cards| == 52 && IsDraws(draws) && index < 52
    ensures Shuffled(cards, draws, 0) == cards
    ensures index > 0 ==>
              Shuffled(cards, draws, index) == Shuffled(Swapped(cards, index, draws[index]), draws, index - 1)
  {
  }

  method ShuffleCards(draws: seq<nat>) returns (shuffledCards: seq<Card>)
    requires IsDraws(draws)
    ensures shuffledCards == ShuffledDeck(draws)
  {
    hide Shuffled;
    var cards := new Card[52](i requires 0 <= i < 52 => CardsDeck()[i]);
    assert cards[..] == CardsDeck();
    var index: nat := 51;
    while index > 0
      invariant index < 52 && cards.Length == 52
      invariant Shuffled(cards[..], draws, index) == ShuffledDeck(draws)
    {
      ghost var before := cards[..];
      ShuffleStep(before, draws, index);
      cards[index], cards[draws[index]] := cards[draws[index]], cards[index];
      assert cards[..] == Swapped(before, index, draws[index]);
      index := index - 1;
    }
    ShuffleStep(cards[..], draws, 0);
    return cards[..];
  }

  // ---------- dealing ----------

  function Unthrown(cards: seq<Card>): (r: seq<GameCard>)
    ensures |r| == |cards| && forall i {:trigger r[i]} :: 0 <= i < |r| ==> r[i] == GameCard(cards[i], false)
  {
    seq(|cards|, i requires 0 <= i < |cards| => GameCard(cards[i], false))
  }

  /** The thirteen cards of a seat. */
  function Share(shuffledCards: seq<Card>, seat: nat): (r: seq<GameCard>)
    requires |shuffledCards| == 52 && seat < 4
    ensures |r| == CARDS_PER_PLAYER
  {
    Unthrown(shuffledCards[13 * seat..13 * seat + 13])
  }

  /** Cards are taken from the front of the deck, thirteen for one player after the other. */
  method DealHands(shuffledCards: seq<Card>) returns (playerCards: seq<seq<GameCard>>)
    requires |shuffledCards| == 52
    ensures |playerCards| == 4 && forall seat :: 0 <= seat < 4 ==> playerCards[seat] == Share(shuffledCards, seat)
  {
    playerCards := [];
    var rest := shuffledCards;
    for seat := 0 to 4
      invariant |playerCards| == seat && rest == shuffledCards[13 * seat..]
      invariant forall i :: 0 <= i < seat ==> playerCards[i] == Share(shuffledCards, i)
    {
      var cardsArray := [];
      for index := 0 to CARDS_PER_PLAYER
        invariant rest == shuffledCards[13 * seat + index..]
        invariant cardsArray == Unthrown(shuffledCards[13 * seat..13 * seat + index])
      {
        cardsArray := cardsArray + [GameCard(rest[0], false)];
        rest := rest[1..];
      }
      playerCards := playerCards + [cardsArray];
    }
  }

  // ---------- the rule a deal must meet ----------

  ghost predicate HasSuit(cards: seq<GameCard>, suit: Suit) {
    exists i :: 0 <= i < |cards| && cards[i].card.suit == suit
  }

  /** All four suits and a card above 10. */
  ghost predicate IsFair(cards: seq<GameCard>) {
    (forall suit: Suit :: HasSuit(cards, suit)) && exists i :: 0 <= i < |cards| && cards[i].card.number > 10
  }

  lemma FourSuits(suits: set<Suit>)
    ensures |suits| == 4 <==> forall suit: Suit :: suit in suits
  {
    var all := {Heart, Spade, Club, Diamond};
    forall suit: Suit
      ensures suit in all
    {
      match suit case Heart => case Spade => case Club => case Diamond =>
    }
    if forall suit: Suit :: suit in suits {
      assert suits == all;
    } else {
      var suit: Suit :| suit !in suits;
      SubsetSize(suits, all - {suit});
    }
  }

  method CheckRule(playerCards: seq<seq<GameCard>>) returns (flag: bool)
    requires |playerCards| == 4
    ensures flag <==> forall seat :: 0 <= seat < 4 ==> IsFair(playerCards[seat])
  {
    for index := 0 to 4
      invariant forall seat :: 0 <= seat < index ==> IsFair(playerCards[seat])
    {
      var cards := playerCards[index];
      var suitsSet: set<Suit> := {};
      var hasNoCardOver10 := true;
      for i := 0 to |cards|
        invariant forall suit: Suit :: suit in suitsSet <==> HasSuit(cards[..i], suit)
        invariant hasNoCardOver10 <==> forall j :: 0 <= j < i ==> cards[j].card.number <= 10
      {
        OneMoreSuit(cards, i);
        suitsSet := suitsSet + {cards[i].card.suit};
        hasNoCardOver10 := hasNoCardOver10 && cards[i].card.number <= 10;
      }
      assert cards[..|cards|] == cards;
      FourSuits(suitsSet);
      if |suitsSet| != 4 || hasNoCardOver10 {
        return false;
      }
    }
    return true;
  }

  lemma OneMoreSuit(cards: seq<GameCard>, i: nat)
    requires i < |cards|
    ensures forall suit: Suit :: HasSuit(cards[..i + 1], suit) <==>
              HasSuit(cards[..i], suit) || suit == cards[i].card.suit
  {
    forall suit: Suit
      ensures HasSuit(cards[..i + 1], suit) <==> HasSuit(cards[..i], suit) || suit == cards[i].card.suit
    {
      if HasSuit(cards[..i], suit) {
        var j :| 0 <= j < i && cards[..i][j].card.suit == suit;
        assert cards[..i + 1][j] == cards[j];
      }
      if suit == cards[i].card.suit {
        assert cards[..i + 1][i] == cards[i];
      }
    }
  }

  // ---------- sorting a hand ----------

  /** Clubs, hearts, diamonds, spades, each by number. */
  function GetTotalNumber(card: Card): int {
    card.number + match card.suit case Club => 20 case Heart => 40 case Diamond => 60 case Spade => 80
  }

  ghost predicate IsSorted(cards: seq<GameCard>) {
    SortedUpTo(cards, |cards|)
  }

  /** The first cards are in order and none of the others is smaller. */
  ghost predicate SortedUpTo(cards: seq<GameCard>, index: nat) {
    forall i, j :: 0 <= i < index && i < j < |cards| ==> GetTotalNumber(cards[i].card) <= GetTotalNumber(cards[j].card)
  }

  /** Among the cards from the index on, those before `other` are no smaller than the one at the index. */
  ghost predicate LeastUpTo(cards: seq<GameCard>, index: nat, other: nat)
    requires index < other <= |cards|
  {
    forall j :: index < j < other ==> GetTotalNumber(cards[index].card) <= GetTotalNumber(cards[j].card)
  }

  lemma ExchangeKeepsOrder(cards: seq<GameCard>, index: nat, other: nat)
    requires index < other < |cards| && SortedUpTo(cards, index) && LeastUpTo(cards, index, other)
    ensures var swapped := if GetTotalNumber(cards[index].card) > GetTotalNumber(cards[other].card)
                           then Swapped(cards, index, other) else cards;
            SortedUpTo(swapped, index) && LeastUpTo(swapped, index, other + 1)
  {
    hide GetTotalNumber;
  }

  /** Every later card that is smaller is exchanged with the card at the index. */
  method GetSortedCards(hand: seq<GameCard>) returns (sorted: seq<GameCard>)
    ensures IsSorted(sorted) && multiset(sorted) == multiset(hand)
  {
    hide GetTotalNumber, SortedUpTo, LeastUpTo;
    var cards := new GameCard[|hand|](i requires 0 <= i < |hand| => hand[i]);
    assert cards[..] == hand;
    NothingSorted(cards[..]);
    var index := 0;
    while index < cards.Length - 1
      invariant index <= cards.Length && multiset(cards[..]) == multiset(hand) && SortedUpTo(cards[..], index)
    {
      LeastOfOne(cards[..], index);
      for other := index + 1 to cards.Length
        invariant multiset(cards[..]) == multiset(hand)
        invariant SortedUpTo(cards[..], index) && LeastUpTo(cards[..], index, other)
      {
        ghost var before := cards[..];
        ExchangeKeepsOrder(before, index, other);
        if GetTotalNumber(cards[index].card) > GetTotalNumber(cards[other].card) {
          cards[index], cards[other] := cards[other], cards[index];
          assert cards[..] == Swapped(before, index, other);
        }
      }
      OneMoreSorted(cards[..], index);
      index := index + 1;
    }
    LastIsSorted(cards[..], index);
    return cards[..];
  }

  lemma NothingSorted(cards: seq<GameCard>)
    ensures SortedUpTo(cards, 0)
  {
  }

  lemma LeastOfOne(cards: seq<GameCard>, index: nat)
    requires index < |cards|
    ensures LeastUpTo(cards, index, index + 1)
  {
  }

  lemma OneMoreSorted(cards: seq<GameCard>, index: nat)
    requires index < |cards| && SortedUpTo(cards, index) && LeastUpTo(cards, index, |cards|)
    ensures SortedUpTo(cards, index + 1)
  {
    hide GetTotalNumber;
  }

  lemma LastIsSorted(cards: seq<GameCard>, index: nat)
    requires |cards| - 1 <= index <= |cards| && SortedUpTo(cards, index)
    ensures IsSorted(cards)
  {
    hide GetTotalNumber;
  }

  // ---------- a whole deal ----------

  /** Whether the deal of one shuffle meets the rule at every seat. */
  ghost predicate Passes(draws: seq<nat>)
    requires IsDraws(draws)
  {
    forall seat :: 0 <= seat < 4 ==> IsFair(Share(ShuffledDeck(draws), seat))
  }

  /** Each hand holds the sorted cards of its share. */
  ghost predicate DealtFrom(hands: seq<seq<GameCard>>, draws: seq<nat>)
    requires IsDraws(draws)
  {
    |hands| == 4 && forall seat :: 0 <= seat < 4 ==>
      IsSorted(hands[seat]) && multiset(hands[seat]) == multiset(Share(ShuffledDeck(draws), seat))
  }

  /** Shuffles and deals until a deal meets the rule, or the given random numbers are used up. */
  method DealCards(attempts: seq<seq<nat>>) returns (dealt: Option<seq<seq<GameCard>>>, ghost n: nat)
    requires forall draws <- attempts :: IsDraws(draws)
    ensures n <= |attempts| && forall i :: 0 <= i < n ==> !Passes(attempts[i])
    ensures dealt.Some? <==> exists i :: 0 <= i < |attempts| && Passes(attempts[i])
    ensures dealt.Some? <==> n < |attempts|
    ensures dealt.Some? ==> |dealt.value| == 4 && forall seat :: 0 <= seat < 4 ==> IsSorted(dealt.value[seat])
    ensures dealt.Some? ==> Passes(attempts[n]) && DealtFrom(dealt.value, attempts[n])
  {
    hide IsFair, Share, ShuffledDeck, IsDraws, IsSorted;
    n := 0;
    for attempt := 0 to |attempts|
      invariant n == attempt && forall i :: 0 <= i < attempt ==> !Passes(attempts[i])
    {
      assert attempts[attempt] in attempts;
      var shuffledCards := ShuffleCards(attempts[attempt]);
      var playerCards := DealHands(shuffledCards);
      var flag := CheckRule(playerCards);
      if flag {
        var sorted0 := GetSortedCards(playerCards[0]);
        var sorted1 := GetSortedCards(playerCards[1]);
        var sorted2 := GetSortedCards(playerCards[2]);
        var sorted3 := GetSortedCards(playerCards[3]);
        dealt := Some([sorted0, sorted1, sorted2, sorted3]);
        return;
      }
      n := n + 1;
    }
    dealt := None;
  }

  // ---------- what a deal is ----------

  ghost function AllCards(hands: seq<seq<GameCard>>): multiset<GameCard>
    requires |hands| == 4
  {
    multiset(hands[0]) + multiset(hands[1]) + multiset(hands[2]) + multiset(hands[3])
  }

  lemma SharesAreTheDeck(shuffledCards: seq<Card>)
    requires |shuffledCards| == 52
    ensures Share(shuffledCards, 0) + Share(shuffledCards, 1) + Share(shuffledCards, 2) + Share(shuffledCards, 3)
         == Unthrown(shuffledCards)
  {
  }

  /** Every card of the deck is dealt exactly once, thirteen cards to each seat, none of them thrown. */
  lemma DealIsTheDeck(hands: seq<seq<GameCard>>, draws: seq<nat>)
    requires IsDraws(draws) && DealtFrom(hands, draws)
    ensures forall c: Card, thrown: bool ::
              AllCards(hands)[GameCard(c, thrown)] == if IsRank(c) && !thrown then 1 else 0
    ensures forall seat :: 0 <= seat < 4 ==> |hands[seat]| == 13
  {
    var deck := ShuffledDeck(draws);
    ShufflePermutes(CardsDeck(), draws, 51);
    hide Share, Shuffled, ShuffledDeck, IsSorted, Unthrown;
    forall seat | 0 <= seat < 4
      ensures |hands[seat]| == 13
    {
      assert |multiset(hands[seat])| == |multiset(Share(deck, seat))|;
    }
    SharesAreTheDeck(deck);
    assert AllCards(hands) == multiset(Unthrown(deck));
    forall c: Card, thrown: bool
      ensures AllCards(hands)[GameCard(c, thrown)] == if IsRank(c) && !thrown then 1 else 0
    {
      DeckIsFull(c);
      OnceEach(CardsDeck());
      UnthrownCounts(deck, c, thrown);
      assert c in multiset(CardsDeck()) <==> c in CardsDeck();
    }
  }

  lemma {:induction false} UnthrownCounts(cards: seq<Card>, c: Card, thrown: bool)
    ensures multiset(Unthrown(cards))[GameCard(c, thrown)] == if thrown then 0 else multiset(cards)[c]
  {
    if cards != [] {
      var n := |cards| - 1;
      UnthrownCounts(cards[..n], c, thrown);
      assert cards == cards[..n] + [cards[n]];
      assert Unthrown(cards) == Unthrown(cards[..n]) + [GameCard(cards[n], false)];
    }
  }

  /** So no hand holds a card twice. */
  lemma EachCardOnce(hands: seq<seq<GameCard>>, seat: nat)
    requires |hands| == 4 && seat < 4
    requires forall c: Card, thrown: bool ::
               AllCards(hands)[GameCard(c, thrown)] == if IsRank(c) && !thrown then 1 else 0
    ensures DistinctCards(hands[seat])
    ensures forall i :: 0 <= i < |hands[seat]| ==> IsRank(hands[seat][i].card) && !hands[seat][i].thrown
  {
    var hand := hands[seat];
    forall g: GameCard | g in multiset(hand)
      ensures multiset(hand)[g] == 1 && IsRank(g.card) && !g.thrown
    {
      assert g == GameCard(g.card, g.thrown);
      assert 1 <= multiset(hand)[g] <= AllCards(hands)[g];
    }
    OnceEach(hand);
    forall i | 0 <= i < |hand|
      ensures IsRank(hand[i].card) && !hand[i].thrown
    {
      assert hand[i] in multiset(hand);
    }
    assert forall i, j :: 0 <= i < j < |hand| ==> hand[i] != hand[j];
  }
}
