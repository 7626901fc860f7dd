/** The cards of Call Break: which may be thrown, and which one takes the trick. */
module CallBreakCards {
  import opened Options

  datatype Suit = Heart | Spade | Club | Diamond

  datatype Card = Card(suit: Suit, number: nat)

  datatype GameCard = GameCard(card: Card, thrown: bool)

  // ---------- comparing cards ----------

  predicate CanBeFirstCard(first: Card, card: Card) {
    first.suit == card.suit && first.number < card.number
  }

  predicate CanBeLeadCard(lead: Card, card: Card) {
    lead.suit == card.suit && lead.number < card.number
  }

  predicate CanAddLeadCard(first: Card, card: Card) {
    first.suit != Spade && card.suit == Spade
  }

  /** The best card of the led suit and the best trump, updated by one more card. */
  function Follow(first: Card, lead: Option<Card>, card: Card): (Card, Option<Card>) {
    if CanBeFirstCard(first, card) then (card, lead)
    else if lead.Some? then (first, if CanBeLeadCard(lead.value, card) then Some(card) else lead)
    else (first, if CanAddLeadCard(first, card) then Some(card) else lead)
  }

  function CompareCards(a: Card, b: Card): Card {
    if a.suit == Spade || b.suit == Spade then
      if a.suit == Spade && b.suit == Spade then (if a.number > b.number then a else b)
      else if a.suit == Spade then a else b
    else if a.number > b.number then a else b
  }

  /** The scan over all cards of the trick. */
  method GetStrongCard(first: Card, cards: seq<Card>) returns (strong: Card)
    ensures strong == StrongCard(first, cards)
  {
    strong := first;
    for i := 0 to |cards|
      invariant strong == StrongCard(first, cards[..i])
    {
      assert cards[..i + 1][..i] == cards[..i];
      if first.suit == cards[i].suit || cards[i].suit == Spade {
        strong := CompareCards(strong, cards[i]);
      }
    }
    assert cards[..|cards|] == cards;
  }

  function StrongCard(first: Card, cards: seq<Card>): Card {
    if cards == [] then first else
      var strong, last := StrongCard(first, cards[..|cards| - 1]), cards[|cards| - 1];
      if first.suit == last.suit || last.suit == Spade then CompareCards(strong, last) else strong
  }

  // ---------- what takes the trick ----------

  const TRUMP: nat := 100

  /** Spades beat everything, the led suit beats the other two. */
  function Strength(card: Card, led: Suit): nat {
    if card.suit == Spade then TRUMP + card.number else if card.suit == led then card.number else 0
  }

  /** The ranks of a deck. */
  predicate IsRank(card: Card) {
    2 <= card.number <= 14
  }

  ghost predicate Strongest(card: Card, cards: seq<Card>, led: Suit) {
    card in cards && forall i :: 0 <= i < |cards| ==> Strength(cards[i], led) <= Strength(card, led)
  }

  lemma StrengthIsInjective(a: Card, b: Card, led: Suit)
    requires IsRank(a) && IsRank(b) && Strength(a, led) == Strength(b, led) > 0
    ensures a == b
  {
  }

  lemma {:induction false} StrongCardIsStrongest(first: Card, cards: seq<Card>)
    requires IsRank(first) && forall i :: 0 <= i < |cards| ==> IsRank(cards[i])
    ensures var strong := StrongCard(first, cards);
            && (strong == first || strong in cards) && IsRank(strong)
            && (strong.suit == first.suit || strong.suit == Spade)
            && Strength(first, first.suit) <= Strength(strong, first.suit)
            && forall i :: 0 <= i < |cards| ==> Strength(cards[i], first.suit) <= Strength(strong, first.suit)
  {
    if cards != [] {
      StrongCardIsStrongest(first, cards[..|cards| - 1]);
    }
  }

  /** What the table keeps while a trick is played: the best card of the led suit and the best trump, if any. */
  ghost predicate Leading(trick: seq<Card>, first: Card, lead: Option<Card>) {
    && trick != [] && first.suit == trick[0].suit && first in trick
    && (forall i :: 0 <= i < |trick| && trick[i].suit == first.suit ==> trick[i].number <= first.number)
    && match lead
       case None => forall i :: 0 <= i < |trick| ==> trick[i].suit == Spade ==> first.suit == Spade
       case Some(c) => first.suit != Spade && c.suit == Spade && c in trick
                       && forall i :: 0 <= i < |trick| && trick[i].suit == Spade ==> trick[i].number <= c.number
  }

  lemma FollowKeepsLeading(trick: seq<Card>, first: Card, lead: Option<Card>, card: Card)
    requires Leading(trick, first, lead)
    ensures var (f, l) := Follow(first, lead, card); Leading(trick + [card], f, l)
  {
    assert card in trick + [card];
    assert forall c <- trick :: c in trick + [card];
  }

  function Best(first: Card, lead: Option<Card>): Card {
    if lead.Some? then lead.value else first
  }

  /** The two cards kept card by card give the card that the scan over the whole trick finds, and it takes the trick. */
  lemma KeptCardTakesTheTrick(trick: seq<Card>, cards: seq<Card>, first: Card, lead: Option<Card>)
    requires Leading(trick, first, lead) && multiset(cards) == multiset(trick)
    requires forall i :: 0 <= i < |trick| ==> IsRank(trick[i])
    ensures StrongCard(first, cards) == Best(first, lead)
    ensures Strongest(StrongCard(first, cards), cards, trick[0].suit)
  {
    SameCards(trick, cards);
    assert forall i :: 0 <= i < |cards| ==> cards[i] in trick;
    StrongCardIsStrongest(first, cards);
    var strong, best := StrongCard(first, cards), Best(first, lead);
    assert Strongest(best, trick, first.suit);
    assert strong in trick && best in cards;
    StrengthIsInjective(strong, best, first.suit);
  }

  lemma SameCards(a: seq<Card>, b: seq<Card>)
    requires multiset(a) == multiset(b)
    ensures forall c :: c in a <==> c in b
  {
    forall c
      ensures c in a <==> c in b
    {
      assert c in a <==> c in multiset(a);
      assert c in b <==> c in multiset(b);
    }
  }

  // ---------- which cards may be thrown ----------

  function Remaining(cards: seq<GameCard>): seq<Card> {
    if cards == [] then [] else
      Remaining(cards[..|cards| - 1]) + if cards[|cards| - 1].thrown then [] else [cards[|cards| - 1].card]
  }

  function OfSuit(cards: seq<Card>, suit: Suit): seq<Card> {
    if cards == [] then [] else
      OfSuit(cards[..|cards| - 1], suit) + if cards[|cards| - 1].suit == suit then [cards[|cards| - 1]] else []
  }

  function Above(cards: seq<Card>, number: nat): seq<Card> {
    if cards == [] then [] else
      Above(cards[..|cards| - 1], number) + if cards[|cards| - 1].number > number then [cards[|cards| - 1]] else []
  }

  function OrElse(a: seq<Card>, b: seq<Card>): seq<Card> {
    if a != [] then a else b
  }

  /** Follow suit, higher if no trump was played; else trump; else anything. */
  function PossibleCards(remaining: seq<Card>, first: Option<Card>, lead: Option<Card>): seq<Card> {
    match first
    case None => remaining
    case Some(f) =>
      if lead.Some? then
        OrElse(OfSuit(remaining, f.suit), OrElse(Above(OfSuit(remaining, Spade), lead.value.number), remaining))
      else
        OrElse(Above(OfSuit(remaining, f.suit), f.number),
               OrElse(OfSuit(remaining, f.suit), OrElse(OfSuit(remaining, Spade), remaining)))
  }

  lemma {:induction false} OfSuitIs(cards: seq<Card>, suit: Suit, c: Card)
    ensures c in OfSuit(cards, suit) <==> c in cards && c.suit == suit
  {
    if cards != [] {
      var n := |cards| - 1;
      OfSuitIs(cards[..n], suit, c);
      assert c in cards <==> c in cards[..n] || c == cards[n];
    }
  }

  lemma {:induction false} AboveIs(cards: seq<Card>, number: nat, c: Card)
    ensures c in Above(cards, number) <==> c in cards && c.number > number
  {
    if cards != [] {
      var n := |cards| - 1;
      AboveIs(cards[..n], number, c);
      assert c in cards <==> c in cards[..n] || c == cards[n];
    }
  }

  /**
   * Only remaining cards may be thrown, somebody with cards always has one, and the led suit is followed by who has
   * it.
   */
  lemma PossibleCardsAreLegal(remaining: seq<Card>, first: Option<Card>, lead: Option<Card>, c: Card)
    ensures var possible := PossibleCards(remaining, first, lead);
            && (c in possible ==> c in remaining)
            && (possible == [] <==> remaining == [])
            && (first.Some? && c in possible && c.suit != first.value.suit ==>
                  forall d <- remaining :: d.suit != first.value.suit)
  {
    if first.Some? {
      var f := first.value;
      var suit, spades := OfSuit(remaining, f.suit), OfSuit(remaining, Spade);
      OfSuitIs(remaining, f.suit, c);
      OfSuitIs(remaining, Spade, c);
      AboveIs(suit, f.number, c);
      if lead.Some? {
        AboveIs(spades, lead.value.number, c);
      }
      forall d | d in remaining && d.suit == f.suit
        ensures suit != []
      {
        OfSuitIs(remaining, f.suit, d);
      }
      EmptyStays(remaining, f.suit);
      EmptyStays(remaining, Spade);
    }
  }

  lemma EmptyStays(remaining: seq<Card>, suit: Suit)
    ensures remaining == [] ==> OfSuit(remaining, suit) == []
    ensures forall number :: OfSuit(remaining, suit) == [] ==> Above(OfSuit(remaining, suit), number) == []
  {
  }

  // ---------- throwing a card ----------

  function CountThrown(cards: seq<GameCard>): nat {
    if cards == [] then 0 else CountThrown(cards[..|cards| - 1]) + if cards[|cards| - 1].thrown then 1 else 0
  }

  function MarkThrown(cards: seq<GameCard>, card: Card): (r: seq<GameCard>)
    ensures |r| == |cards| && forall i {:trigger r[i]} :: 0 <= i < |r| ==>
              r[i] == if cards[i].card == card then cards[i].(thrown := true) else cards[i]
  {
    seq(|cards|, i requires 0 <= i < |cards| => if cards[i].card == card then cards[i].(thrown := true) else cards[i])
  }

  ghost predicate DistinctCards(cards: seq<GameCard>) {
    forall i, j :: 0 <= i < j < |cards| ==> cards[i].card != cards[j].card
  }

  lemma {:induction false} RemainingCount(cards: seq<GameCard>)
    ensures |Remaining(cards)| + CountThrown(cards) == |cards|
  {
    if cards != [] {
      RemainingCount(cards[..|cards| - 1]);
    }
  }

  lemma {:induction false} RemainingIs(cards: seq<GameCard>, c: Card)
    ensures c in Remaining(cards) <==> GameCard(c, false) in cards
  {
    if cards != [] {
      var n := |cards| - 1;
      RemainingIs(cards[..n], c);
      assert GameCard(c, false) in cards <==> GameCard(c, false) in cards[..n] || GameCard(c, false) == cards[n];
    }
  }

  /** Throwing a remaining card of a hand without doubles marks exactly one more card. */
  lemma {:induction false} MarkingCounts(cards: seq<GameCard>, card: Card)
    requires DistinctCards(cards)
    ensures DistinctCards(MarkThrown(cards, card))
    ensures CountThrown(MarkThrown(cards, card)) == CountThrown(cards) + if GameCard(card, false) in cards then 1 else 0
  {
    if cards != [] {
      var n := |cards| - 1;
      MarkingCounts(cards[..n], card);
      assert MarkThrown(cards, card)[..n] == MarkThrown(cards[..n], card);
      assert GameCard(card, false) in cards <==>
        GameCard(card, false) in cards[..n] || GameCard(card, false) == cards[n];
    }
  }
}
