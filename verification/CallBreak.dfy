/** One Call Break table: four bids, thirteen tricks of four cards, by request or by timer. */
module CallBreak {
  import opened Options
  import opened CallBreakCards
  import opened Sequences
  import Deals = CallBreakDeal

  const MAX_HANDS: nat := 13

  datatype GameStatus = Waiting | RoundStarted | Dealing | HandBid | Playing | RoundEnded

  datatype CbrPlayer = CbrPlayer(handBid: nat, currentHand: nat, currentCard: Option<Card>, cards: seq<GameCard>)

  /** The stored part of a table. The players sit in the order PL1 .. PL4. */
  datatype State = State(
    players: seq<CbrPlayer>, dealer: nat, currentTurn: nat, firstCard: Option<Card>, leadCard: Option<Card>,
    handNo: nat, turnNo: nat, gameStatus: GameStatus)

  function After(seat: nat, n: nat): (r: nat)
    ensures r < 4
  {
    (seat + n) % 4
  }

  // ---------- throwing a card ----------

  function WithCard(players: seq<CbrPlayer>, seat: nat, card: Card): seq<CbrPlayer>
    requires seat < |players|
  {
    players[seat := players[seat].(currentCard := Some(card), cards := MarkThrown(players[seat].cards, card))]
  }

  /** The state right after a card was thrown, before a full trick is taken. */
  function Thrown(s: State, card: Card): State
    requires s.currentTurn < |s.players|
  {
    var s' := s.(players := WithCard(s.players, s.currentTurn, card), turnNo := s.turnNo + 1,
        currentTurn := After(s.currentTurn, 1));
    if s.turnNo % 4 == 0 || s.firstCard.None? then s'.(firstCard := Some(card))
    else
      var (first, lead) := Follow(s.firstCard.value, s.leadCard, card);
      s'.(firstCard := Some(first), leadCard := lead)
  }

  function CurrentCards(players: seq<CbrPlayer>): seq<Card> {
    if players == [] then [] else
      var last := players[|players| - 1];
      CurrentCards(players[..|players| - 1]) + if last.currentCard.Some? then [last.currentCard.value] else []
  }

  /** The first seat showing a card, or the number of seats. */
  function SeatWith(players: seq<CbrPlayer>, card: Card): (i: nat)
    ensures i <= |players| && (i < |players| ==> players[i].currentCard == Some(card))
    ensures (exists j :: 0 <= j < |players| && players[j].currentCard == Some(card)) ==> i < |players|
  {
    IndexWhere(players, (p: CbrPlayer) => p.currentCard == Some(card))
  }

  /** Cards leave the table and the winner counts one more trick. */
  function Cleared(players: seq<CbrPlayer>, winner: nat): (r: seq<CbrPlayer>)
    ensures |r| == |players| && forall i {:trigger r[i]} :: 0 <= i < |r| ==>
              r[i] == players[i].(currentCard := None,
                                  currentHand := players[i].currentHand + if i == winner then 1 else 0)
  {
    seq(|players|, i requires 0 <= i < |players| =>
      players[i].(currentCard := None, currentHand := players[i].currentHand + if i == winner then 1 else 0))
  }

  /** A full trick is taken by the seat that shows the strong card. */
  function HandEnded(s: State): State {
    if s.firstCard.None? then s else
      var winner := SeatWith(s.players, StrongCard(s.firstCard.value, CurrentCards(s.players)));
      s.(players := Cleared(s.players, winner), dealer := winner, currentTurn := winner,
         firstCard := None, leadCard := None,
         handNo := s.handNo + 1)
  }

  /** What one throw makes of a table, taking the trick included. */
  function AfterThrow(s: State, card: Card): State
    requires s.currentTurn < |s.players|
  {
    var s' := Thrown(s, card);
    if s'.turnNo % 4 == 0 && s'.turnNo > 6 then HandEnded(s') else s'
  }

  function Possible(s: State): seq<Card>
    requires s.currentTurn < |s.players|
  {
    PossibleCards(Remaining(s.players[s.currentTurn].cards), s.firstCard, s.leadCard)
  }

  // ---------- the invariant of a round ----------

  function Tricks(players: seq<CbrPlayer>): nat {
    if players == [] then 0 else Tricks(players[..|players| - 1]) + players[|players| - 1].currentHand
  }

  ghost predicate HoldsHand(cards: seq<GameCard>) {
    |cards| == MAX_HANDS && DistinctCards(cards) && forall i :: 0 <= i < |cards| ==> IsRank(cards[i].card)
  }

  /** Players at the start of a round. */
  ghost predicate Blank(players: seq<CbrPlayer>) {
    forall i :: 0 <= i < |players| ==> players[i] == CbrPlayer(0, 0, None, [])
  }

  /** Hands just dealt: nothing thrown, no trick taken. */
  ghost predicate Untouched(players: seq<CbrPlayer>) {
    |players| == 4 && forall i :: 0 <= i < 4 ==>
      HoldsHand(players[i].cards) && CountThrown(players[i].cards) == 0 && players[i].currentCard == None &&
          players[i].currentHand == 0
  }

  /** `trick` lists the cards on the table in the order thrown, from the dealer's seat on. */
  ghost predicate OnTable(players: seq<CbrPlayer>, dealer: nat, trick: seq<Card>) {
    && |players| == 4 && |trick| <= 4
    && (forall n: nat :: n < 4 ==>
      players[After(dealer, n)].currentCard == if n < |trick| then Some(trick[n]) else None)
  }

  ghost predicate HandsCount(players: seq<CbrPlayer>, handNo: nat) {
    forall i :: 0 <= i < |players| ==>
      HoldsHand(players[i].cards) && CountThrown(players[i].cards) == handNo - 1
      + if players[i].currentCard.Some? then 1 else 0
  }

  /** A trick being played, with fewer than `limit` cards on the table. */
  ghost predicate InTrick(s: State, trick: seq<Card>) {
    && s.gameStatus == Playing && s.dealer < 4 && 1 <= s.handNo <= 14
    && OnTable(s.players, s.dealer, trick)
    && (s.handNo == 14 ==> trick == [])
    && s.turnNo == 4 * s.handNo + |trick|
    && s.currentTurn == After(s.dealer, |trick|)
    && Tricks(s.players) == s.handNo - 1
    && HandsCount(s.players, s.handNo)
    && Led(trick, s.firstCard, s.leadCard)
  }

  /** The table keeps the best card of the led suit and the best trump of the trick. */
  ghost predicate Led(trick: seq<Card>, first: Option<Card>, lead: Option<Card>) {
    && (forall i :: 0 <= i < |trick| ==> IsRank(trick[i]))
    && if trick == [] then first == None && lead == None else first.Some? && Leading(trick, first.value, lead)
  }

  /** Whoever is on turn has a card left that may be thrown. */
  lemma SomeCardIsPossible(s: State, trick: seq<Card>)
    requires InTrick(s, trick) && |trick| < 4 && s.handNo <= 13
    ensures s.currentTurn < |s.players| && Possible(s) != []
  {
    var p := s.players[s.currentTurn];
    assert s.players[After(s.dealer, |trick|)].currentCard == None;
    RemainingCount(p.cards);
    PossibleCardsAreLegal(Remaining(p.cards), s.firstCard, s.leadCard, Card(Heart, 0));
  }

  /** A legal card adds one card to the trick and marks it in the hand. */
  lemma ThrowKeepsTrick(s: State, trick: seq<Card>, card: Card)
    requires InTrick(s, trick) && |trick| < 4 && s.handNo <= 13 && s.currentTurn < |s.players| && card in Possible(s)
    ensures InTrick(Thrown(s, card), trick + [card])
  {
    hide Possible, Led, HandsCount, OnTable, Tricks, Follow, WithCard;
    CardsOnTable(s.handNo, |trick|);
    ThrowMarksHand(s, trick, card);
    ThrowLeads(s, trick, card);
    NextSeat(s.dealer, |trick|);
  }

  lemma NextSeat(dealer: nat, n: nat)
    ensures After(After(dealer, n), 1) == After(dealer, n + 1)
  {
  }

  lemma CardsOnTable(handNo: nat, k: nat)
    requires k < 4
    ensures (4 * handNo + k) % 4 == k
  {
  }

  lemma ThrowMarksHand(s: State, trick: seq<Card>, card: Card)
    requires InTrick(s, trick) && |trick| < 4 && s.currentTurn < |s.players| && card in Possible(s)
    ensures IsRank(card)
    ensures var players := WithCard(s.players, s.currentTurn, card);
            && OnTable(players, s.dealer, trick + [card]) && HandsCount(players, s.handNo)
            && Tricks(players) == Tricks(s.players)
  {
    hide PossibleCards, Remaining, CountThrown, Led, Tricks;
    var p := s.players[s.currentTurn];
    assert p.currentCard == None;
    PossibleCardsAreLegal(Remaining(p.cards), s.firstCard, s.leadCard, card);
    RemainingIs(p.cards, card);
    MarkingCounts(p.cards, card);
    var i :| 0 <= i < |p.cards| && p.cards[i] == GameCard(card, false);
    var players := WithCard(s.players, s.currentTurn, card);
    SameTricks(s.players, players);
    CardLands(s.players, players, s.dealer, trick, card);
  }

  lemma ThrowLeads(s: State, trick: seq<Card>, card: Card)
    requires Led(trick, s.firstCard, s.leadCard) && s.turnNo % 4 == |trick| < 4 && s.currentTurn < |s.players|
    ensures IsRank(card) ==> Led(trick + [card], Thrown(s, card).firstCard, Thrown(s, card).leadCard)
  {
    hide WithCard;
    if trick == [] {
      assert trick + [card] == [card];
    } else {
      FollowKeepsLeading(trick, s.firstCard.value, s.leadCard, card);
    }
  }

  lemma {:induction false} SameTricks(a: seq<CbrPlayer>, b: seq<CbrPlayer>)
    requires |a| == |b| && forall i :: 0 <= i < |a| ==> a[i].currentHand == b[i].currentHand
    ensures Tricks(a) == Tricks(b)
  {
    if a != [] {
      SameTricks(a[..|a| - 1], b[..|b| - 1]);
    }
  }

  lemma CardLands(before: seq<CbrPlayer>, after: seq<CbrPlayer>, dealer: nat, trick: seq<Card>, card: Card)
    requires dealer < 4 && OnTable(before, dealer, trick) && |trick| < 4 && |after| == 4
    requires after[After(dealer, |trick|)].currentCard == Some(card)
    requires forall i :: 0 <= i < 4 && i != After(dealer, |trick|) ==> after[i].currentCard == before[i].currentCard
    ensures OnTable(after, dealer, trick + [card])
  {
    forall n: nat | n < 4
      ensures after[After(dealer, n)].currentCard == if n < |trick| + 1 then Some((trick + [card])[n]) else None
    {
      assert n != |trick| ==> After(dealer, n) != After(dealer, |trick|);
    }
  }

  // ---------- taking a trick ----------

  /** The cards of a trick begun at the dealer's seat, in the order of the seats. */
  function BySeat(trick: seq<Card>, dealer: nat): seq<Card>
    requires |trick| == 4 && dealer < 4
  {
    trick[4 - dealer..] + trick[..4 - dealer]
  }

  lemma BySeatPermutes(trick: seq<Card>, dealer: nat)
    requires |trick| == 4 && dealer < 4
    ensures multiset(BySeat(trick, dealer)) == multiset(trick) && |BySeat(trick, dealer)| == 4
  {
    assert trick == trick[..4 - dealer] + trick[4 - dealer..];
  }

  lemma SeatShows(players: seq<CbrPlayer>, dealer: nat, trick: seq<Card>, i: nat)
    requires dealer < 4 && OnTable(players, dealer, trick) && |trick| == 4 && i < 4
    ensures players[i].currentCard == Some(BySeat(trick, dealer)[i])
  {
    var n: nat := if i >= dealer then i - dealer else i + 4 - dealer;
    assert After(dealer, n) == i;
    assert players[After(dealer, n)].currentCard == Some(trick[n]);
  }

  /** The four cards shown are the trick, in whatever seat it began. */
  lemma ShownCards(players: seq<CbrPlayer>, dealer: nat, trick: seq<Card>)
    requires dealer < 4 && OnTable(players, dealer, trick) && |trick| == 4
    ensures CurrentCards(players) == BySeat(trick, dealer)
    ensures forall i :: 0 <= i < 4 ==> players[i].currentCard == Some(BySeat(trick, dealer)[i])
  {
    assert |players| == 4;
    hide OnTable, CurrentCards;
    SeatShows(players, dealer, trick, 0);
    SeatShows(players, dealer, trick, 1);
    SeatShows(players, dealer, trick, 2);
    SeatShows(players, dealer, trick, 3);
    FourShown(players);
  }

  lemma FourShown(players: seq<CbrPlayer>)
    requires |players| == 4 && forall i :: 0 <= i < 4 ==> players[i].currentCard.Some?
    ensures CurrentCards(players) ==
            [players[0].currentCard.value, players[1].currentCard.value, players[2].currentCard.value,
                players[3].currentCard.value]
  {
    assert players[..3][..2] == players[..2] && players[..2][..1] == players[..1] && players[..1][..0] == [];
    assert CurrentCards(players[..1]) == [players[0].currentCard.value];
    assert CurrentCards(players[..2]) == [players[0].currentCard.value, players[1].currentCard.value];
    assert CurrentCards(players[..3]) == [players[0].currentCard.value, players[1].currentCard.value,
        players[2].currentCard.value];
  }

  lemma {:induction false} OneMoreTrick(players: seq<CbrPlayer>, winner: nat)
    requires winner < |players|
    ensures Tricks(Cleared(players, winner)) == Tricks(players) + 1
  {
    var n := |players| - 1;
    if winner < n {
      OneMoreTrick(players[..n], winner);
      assert Cleared(players, winner)[..n] == Cleared(players[..n], winner);
    } else {
      SameTricks(players[..n], Cleared(players, winner)[..n]);
    }
  }

  /**
   * A full trick goes to the seat showing its strongest card, which is also the card kept card by card;
   * the next trick begins there.
   */
  lemma TrickIsTaken(s: State, trick: seq<Card>)
    requires InTrick(s, trick) && |trick| == 4 && s.handNo <= 13
    ensures s.firstCard.Some? && InTrick(HandEnded(s), [])
    ensures var winner := HandEnded(s).dealer;
            && winner < 4 && s.players[winner].currentCard == Some(Best(s.firstCard.value, s.leadCard))
            && Strongest(Best(s.firstCard.value, s.leadCard), trick, trick[0].suit)
            && Tricks(HandEnded(s).players) == Tricks(s.players) + 1
  {
    hide Leading, Strongest, StrongCard, CurrentCards, SeatWith, Best, Tricks, CountThrown, OnTable, HandsCount, Led;
    FourSeats(s.players, s.dealer, trick);
    StrongSeat(s, trick);
    var winner := SeatWith(s.players, StrongCard(s.firstCard.value, CurrentCards(s.players)));
    OneMoreTrick(s.players, winner);
    TableIsCleared(s, trick, winner);
    NothingLed(HandEnded(s));
  }

  lemma NothingLed(s: State)
    requires s.firstCard == None && s.leadCard == None
    ensures Led([], s.firstCard, s.leadCard)
  {
  }

  /** The seat found by the scan shows the card kept while the trick was played, which is the strongest. */
  lemma StrongSeat(s: State, trick: seq<Card>)
    requires s.dealer < 4 && OnTable(s.players, s.dealer, trick) && |trick| == 4 && Led(trick, s.firstCard, s.leadCard)
    ensures s.firstCard.Some? && |s.players| == 4
    ensures var winner := SeatWith(s.players, StrongCard(s.firstCard.value, CurrentCards(s.players)));
            && winner < 4 && s.players[winner].currentCard == Some(Best(s.firstCard.value, s.leadCard))
            && Strongest(Best(s.firstCard.value, s.leadCard), trick, trick[0].suit)
  {
    hide Leading, Strongest, StrongCard, CurrentCards, OnTable, BySeat, Best;
    FourSeats(s.players, s.dealer, trick);
    BySeatPermutes(trick, s.dealer);
    ShownCards(s.players, s.dealer, trick);
    var first, shown := s.firstCard.value, BySeat(trick, s.dealer);
    KeptCardTakesTheTrick(trick, shown, first, s.leadCard);
    BestOfTrick(trick, shown, first, s.leadCard);
    var j :| 0 <= j < 4 && shown[j] == StrongCard(first, shown);
    assert s.players[j].currentCard == Some(StrongCard(first, shown));
  }

  lemma FourSeats(players: seq<CbrPlayer>, dealer: nat, trick: seq<Card>)
    requires OnTable(players, dealer, trick)
    ensures |players| == 4 && |trick| <= 4
  {
  }

  lemma BestOfTrick(trick: seq<Card>, shown: seq<Card>, first: Card, lead: Option<Card>)
    requires Leading(trick, first, lead) && multiset(shown) == multiset(trick) && forall i :: 0 <= i < |trick| ==>
        IsRank(trick[i])
    ensures Strongest(Best(first, lead), trick, trick[0].suit)
    ensures StrongCard(first, shown) in shown
  {
    KeptCardTakesTheTrick(trick, shown, first, lead);
    SameCards(trick, shown);
  }

  lemma TableIsCleared(s: State, trick: seq<Card>, winner: nat)
    requires InTrick(s, trick) && |trick| == 4 && winner < 4
    ensures OnTable(Cleared(s.players, winner), winner, []) && HandsCount(Cleared(s.players, winner), s.handNo + 1)
  {
    hide CountThrown, Led, Tricks, HoldsHand, After;
    forall i | 0 <= i < 4
      ensures s.players[i].currentCard.Some?
    {
      SeatAfter(s.dealer, i);
    }
  }

  /** Every seat comes up counting from any other. */
  lemma SeatAfter(dealer: nat, i: nat)
    requires dealer < 4 && i < 4
    ensures After(dealer, After(i, 4 - dealer)) == i
  {
  }

  // ---------- hands ----------

  function Hands(players: seq<CbrPlayer>): (r: seq<seq<GameCard>>)
    ensures |r| == |players| && forall i {:trigger r[i]} :: 0 <= i < |r| ==> r[i] == players[i].cards
  {
    seq(|players|, i requires 0 <= i < |players| => players[i].cards)
  }

  function WithHands(players: seq<CbrPlayer>, hands: seq<seq<GameCard>>): (r: seq<CbrPlayer>)
    requires |hands| == |players|
    ensures |r| == |players| && forall i {:trigger r[i]} :: 0 <= i < |r| ==> r[i] == players[i].(cards := hands[i])
  {
    seq(|players|, i requires 0 <= i < |players| => players[i].(cards := hands[i]))
  }

  /** Dealt hands are what a round needs: thirteen different cards, none thrown. */
  lemma DealtHandsHold(hands: seq<seq<GameCard>>, draws: seq<nat>)
    requires Deals.IsDraws(draws) && Deals.DealtFrom(hands, draws)
    ensures |hands| == 4 && forall i :: 0 <= i < 4 ==> HoldsHand(hands[i]) && CountThrown(hands[i]) == 0
  {
    hide Deals.IsDraws, Deals.Share, Deals.ShuffledDeck, Deals.IsSorted, Deals.AllCards, DistinctCards, CountThrown;
    Deals.DealIsTheDeck(hands, draws);
    forall i | 0 <= i < 4
      ensures HoldsHand(hands[i]) && CountThrown(hands[i]) == 0
    {
      Deals.EachCardOnce(hands, i);
      NoneThrown(hands[i]);
    }
  }

  /** With such hands a blank table is untouched. */
  lemma DealtIsUntouched(players: seq<CbrPlayer>, hands: seq<seq<GameCard>>)
    requires |players| == |hands| == 4 && Blank(players)
    requires forall i :: 0 <= i < 4 ==> HoldsHand(hands[i]) && CountThrown(hands[i]) == 0
    ensures Untouched(WithHands(players, hands))
  {
    hide HoldsHand, CountThrown;
  }

  lemma {:induction false} NoneThrown(cards: seq<GameCard>)
    requires forall i :: 0 <= i < |cards| ==> !cards[i].thrown
    ensures CountThrown(cards) == 0
  {
    if cards != [] {
      NoneThrown(cards[..|cards| - 1]);
    }
  }

  // ---------- the table ----------

  class CbrTable {
    var players: seq<CbrPlayer>
    var dealer: nat
    var currentTurn: nat
    var firstCard: Option<Card>
    var leadCard: Option<Card>
    var handNo: nat
    var turnNo: nat
    var gameStatus: GameStatus
    ghost var trick: seq<Card>
    ghost var bids: nat
    ghost var throws: nat

    function Now(): State
      reads this
    {
      State(players, dealer, currentTurn, firstCard, leadCard, handNo, turnNo, gameStatus)
    }

    /** Bids, tricks and cards of the round follow the turn counter. */
    ghost predicate Valid()
      reads this
    {
      && |players| == 4
      && match gameStatus
         case RoundStarted => Blank(players) && BeforePlay() && turnNo == bids == throws == 0
         case Dealing => Untouched(players) && turnNo == bids == throws == 0 && BeforePlay()
         case HandBid => Untouched(players) && turnNo == bids < 4 && throws == 0 && BeforePlay()
         case Playing => InTrick(Now(), trick) && |trick| < 4 && bids == 4 && throws == 4 * (handNo - 1) + |trick|
         case _ => firstCard == None && leadCard == None
    }

    ghost predicate BeforePlay()
      reads this
    {
      && handNo == 1 && dealer < 4 && currentTurn == After(dealer, turnNo)
      && trick == [] && firstCard == None && leadCard == None
    }

    constructor ()
      ensures Valid() && gameStatus == Waiting
    {
      players := [CbrPlayer(0, 0, None, []), CbrPlayer(0, 0, None, []),
                  CbrPlayer(0, 0, None, []), CbrPlayer(0, 0, None, [])];
      dealer, currentTurn, firstCard, leadCard, handNo, turnNo := 0, 0, None, None, 0, 0;
      gameStatus, trick, bids, throws := Waiting, [], 0, 0;
    }

    /**
     * Everything but the cards kept for the trick is reset, so a trick cut off in the middle would leave them behind.
     */
    method StartRound(nextDealer: nat)
      requires Valid() && nextDealer < 4
      modifies this
      ensures gameStatus == RoundStarted && dealer == currentTurn == nextDealer && handNo == 1 && turnNo == 0
      ensures |players| == 4 && Blank(players) && firstCard == old(firstCard) && leadCard == old(leadCard)
      ensures Valid() <==> old(gameStatus) != Playing || old(trick) == []
    {
      hide OnTable, HandsCount, Untouched, Tricks;
      dealer, currentTurn := nextDealer, nextDealer;
      players := seq(4, i requires 0 <= i < 4 => CbrPlayer(0, 0, None, []));
      handNo, turnNo, gameStatus := 1, 0, RoundStarted;
      trick, bids, throws := [], 0, 0;
    }

    /** Shuffles and deals until a deal meets the rule; the hands are sorted. */
    method DealCards(attempts: seq<seq<nat>>) returns (ok: bool, ghost n: nat)
      requires Valid() && forall draws <- attempts :: Deals.IsDraws(draws)
      modifies this
      ensures n <= |attempts| && forall i :: 0 <= i < n ==> !Deals.Passes(attempts[i])
      ensures ok <==> n < |attempts|
      ensures if !ok then unchanged(this)
              else Deals.Passes(attempts[n]) && Deals.DealtFrom(Hands(players), attempts[n]) && gameStatus == Dealing
      ensures old(gameStatus) == RoundStarted ==> Valid()
      ensures ok ==> Now() == old(Now()).(players := WithHands(old(players), Hands(players)), gameStatus := Dealing)
    {
      hide Deals.IsDraws, Deals.Passes, Deals.DealtFrom, InTrick, Untouched, HoldsHand, CountThrown, Blank;
      var dealt;
      dealt, n := Deals.DealCards(attempts);
      if dealt.None? {
        return false, n;
      }
      assert Deals.IsDraws(attempts[n]) by { assert attempts[n] in attempts; }
      DealtHandsHold(dealt.value, attempts[n]);
      if gameStatus == RoundStarted {
        DealtIsUntouched(players, dealt.value);
      }
      players := WithHands(players, dealt.value);
      assert Hands(players) == dealt.value;
      gameStatus := Dealing;
      return true, n;
    }

    /** Asks for the first bid. */
    method AfterDealCards()
      requires Valid() && gameStatus == Dealing
      modifies this
      ensures Valid() && gameStatus == HandBid && players == old(players) && turnNo == old(turnNo) &&
          currentTurn == old(currentTurn)
    {
      gameStatus := HandBid;
    }

    /** A bid on request. */
    method OnHandBid(seat: nat, hand: int) returns (ok: bool)
      requires Valid()
      modifies this
      ensures Valid()
      ensures ok <==> 1 <= hand <= 13 && old(gameStatus) == HandBid && seat == old(currentTurn)
      ensures if ok then BidPlaced(old(Now()), hand) == Now() && bids == old(bids) + 1 else unchanged(this)
    {
      hide Untouched;
      if hand < 1 || hand > 13 || gameStatus != HandBid || turnNo >= 4 || seat != currentTurn {
        return false;
      }
      PlaceBid(hand);
      return true;
    }

    /** A bid of one when the timer runs out. */
    method AutoHandBid() returns (ok: bool)
      requires Valid()
      modifies this
      ensures Valid()
      ensures ok <==> old(gameStatus) == HandBid
      ensures if ok then BidPlaced(old(Now()), 1) == Now() && bids == old(bids) + 1 else unchanged(this)
    {
      hide Untouched;
      if gameStatus != HandBid {
        return false;
      }
      PlaceBid(1);
      return true;
    }

    method PlaceBid(hand: nat)
      requires Valid() && gameStatus == HandBid
      modifies this
      ensures Valid() && BidPlaced(old(Now()), hand) == Now() && bids == old(bids) + 1
    {
      hide HoldsHand, CountThrown, InTrick, Blank, Untouched;
      BidKeepsHands(players, currentTurn, hand);
      players := players[currentTurn := players[currentTurn].(handBid := hand)];
      turnNo, bids := turnNo + 1, bids + 1;
      currentTurn := After(currentTurn, 1);
      if turnNo == 4 {
        gameStatus := Playing;
        FirstTrick(Now());
      }
    }

    /** A card thrown on request. */
    method OnThrowCard(seat: nat, card: Card) returns (ok: bool)
      requires Valid()
      modifies this
      ensures Valid()
      ensures ok <==> old(gameStatus) == Playing && seat == old(currentTurn) && card in Possible(old(Now()))
      ensures if ok then Now() == AfterThrow(old(Now()), card) && throws == old(throws) + 1 else unchanged(this)
    {
      hide Possible, InTrick, WithCard, Follow, HandEnded, Untouched;
      if gameStatus == Playing {
        TrickFills(Now(), trick);
      }
      if gameStatus != Playing || turnNo < 4 {
        return false;
      }
      LastHandHasNoCards(Now(), trick, card);
      if card !in Possible(Now()) || seat != currentTurn || players[currentTurn].currentCard.Some? {
        TurnHasNotThrown(Now(), trick);
        return false;
      }
      ghost var before := Now();
      players := WithCard(players, seat, card);
      if turnNo % 4 == 0 {
        firstCard := Some(card);
      } else {
        TrickIsLed(before, trick);
        FollowTrick(card);
      }
      turnNo := turnNo + 1;
      currentTurn := After(currentTurn, 1);
      CardIsDown(before, card);
      return true;
    }

    /**
     * When the timer runs out the first possible card is thrown. After the thirteenth trick there is none, and the
     * turn passes with no card on the table.
     */
    method AutoThrowCard() returns (ok: bool)
      requires Valid()
      modifies this
      ensures ok <==> old(gameStatus) == Playing
      ensures if ok && old(handNo) <= MAX_HANDS then
                var possible := Possible(old(Now()));
                possible != [] && Now() == AfterThrow(old(Now()), possible[0]) && throws == old(throws) + 1
              else if ok then
                Possible(old(Now())) == [] &&
                    Now() == old(Now()).(turnNo := old(turnNo) + 1, currentTurn := After(old(currentTurn), 1))
              else unchanged(this)
      ensures Valid() <==> old(gameStatus) != Playing || old(handNo) <= MAX_HANDS
    {
      hide Possible, InTrick, WithCard, Follow, HandEnded, Untouched, Blank;
      if gameStatus != Playing {
        return false;
      }
      ghost var before := Now();
      LastHandIsEmpty(before, trick);
      var possible := Possible(Now());
      if possible == [] {
        PassWithoutCard();
        return true;
      }
      ThrowOnTimeout(possible[0]);
      return true;
    }

    method ThrowOnTimeout(card: Card)
      requires Valid() && gameStatus == Playing && currentTurn < |players| && card in Possible(Now())
      modifies this
      ensures Valid() && Now() == AfterThrow(old(Now()), card) && throws == old(throws) + 1
    {
      hide Possible, InTrick, WithCard, Follow, HandEnded, Untouched, Blank;
      ghost var before := Now();
      players := WithCard(players, currentTurn, card);
      turnNo := turnNo + 1;
      currentTurn := After(currentTurn, 1);
      if turnNo % 4 == 1 {
        firstCard := Some(card);
      } else {
        TrickIsLed(before, trick);
        FollowTrick(card);
      }
      CardIsDown(before, card);
    }

    /** After the last trick no card is thrown. */
    method PassWithoutCard()
      requires Valid() && gameStatus == Playing && currentTurn < |players| && Possible(Now()) == []
      modifies this
      ensures Now() == old(Now()).(turnNo := old(turnNo) + 1, currentTurn := After(old(currentTurn), 1)) && !Valid()
    {
      hide Possible, InTrick, Untouched, Blank;
      ghost var before := Now();
      LastHandIsEmpty(before, trick);
      players := players[currentTurn := players[currentTurn].(currentCard := None)];
      turnNo, currentTurn := turnNo + 1, After(currentTurn, 1);
      firstCard := None;
      assert players == before.players;
      NoTrickToCount(before, Now(), trick);
    }

    method FollowTrick(card: Card)
      requires firstCard.Some?
      modifies this`firstCard, this`leadCard
      ensures var (first, lead) := Follow(old(firstCard).value, old(leadCard), card);
              firstCard == Some(first) && leadCard == lead
    {
      if CanBeFirstCard(firstCard.value, card) {
        firstCard := Some(card);
      } else if leadCard.Some? {
        if CanBeLeadCard(leadCard.value, card) {
          leadCard := Some(card);
        }
      } else if CanAddLeadCard(firstCard.value, card) {
        leadCard := Some(card);
      }
    }

    /** Goes on after a card: the trick is taken once four cards lie. */
    method CardIsDown(ghost before: State, card: Card)
      requires InTrick(before, trick) && |trick| < 4
      requires before.currentTurn < |before.players| && card in Possible(before)
      requires Now() == Thrown(before, card)
      requires bids == 4 && throws == 4 * (before.handNo - 1) + |trick|
      modifies this
      ensures Valid() && Now() == AfterThrow(before, card) && throws == old(throws) + 1
    {
      hide Possible, InTrick, Untouched, WithCard, Follow, StrongCard, CurrentCards, SeatWith, Cleared;
      LastHandHasNoCards(before, trick, card);
      ThrowKeepsTrick(before, trick, card);
      trick, throws := trick + [card], throws + 1;
      TrickFills(Now(), trick);
      if gameStatus == Playing && turnNo % 4 == 0 && turnNo > 6 {
        TrickIsTaken(Now(), trick);
        EndHand();
        NextTrick(Now());
        trick := [];
      }
    }

    /** The winner is found among all cards shown, counts the trick and leads the next one. */
    method EndHand()
      requires firstCard.Some?
      modifies this`players, this`firstCard, this`leadCard, this`dealer, this`currentTurn, this`handNo
      ensures Now() == HandEnded(old(Now()))
    {
      hide StrongCard, CurrentCards, SeatWith;
      var strongCard := GetStrongCard(firstCard.value, CurrentCards(players));
      var winner := SeatWith(players, strongCard);
      players := Cleared(players, winner);
      firstCard, leadCard := None, None;
      dealer, currentTurn := winner, winner;
      handNo := handNo + 1;
    }

    /**
     * Ends the round at any moment; called after thirteen tricks, four bids and 52 throws have been made and every card
     * was thrown. A trick cut off in the middle leaves its kept cards behind.
     */
    method EndRound()
      requires Valid()
      modifies this
      ensures Now() == old(Now()).(turnNo := 0, gameStatus := RoundEnded) && bids == old(bids) && throws == old(throws)
      ensures Valid() <==> old(gameStatus) != Playing || old(trick) == []
      ensures old(gameStatus) == Playing && old(handNo) == MAX_HANDS + 1 ==>
                && bids == 4 && throws == 4 * MAX_HANDS && Tricks(players) == MAX_HANDS
                && forall i :: 0 <= i < 4 ==> CountThrown(players[i].cards) == |players[i].cards| == MAX_HANDS
    {
      hide Untouched, Tricks, CountThrown, OnTable, HandsCount;
      if gameStatus == Playing && handNo == MAX_HANDS + 1 {
        AllThrown(Now(), trick);
      }
      turnNo, gameStatus := 0, RoundEnded;
    }
  }

  /** After the last trick no card is left to throw. */
  lemma LastHandHasNoCards(s: State, trick: seq<Card>, card: Card)
    requires InTrick(s, trick) && |trick| < 4
    ensures s.currentTurn < |s.players| && (card in Possible(s) ==> s.handNo <= 13)
  {
    hide CountThrown, Led, Tricks, PossibleCards;
    var p := s.players[s.currentTurn];
    RemainingCount(p.cards);
    PossibleCardsAreLegal(Remaining(p.cards), s.firstCard, s.leadCard, card);
  }

  /** The thirteenth trick is the last one in which a card can be thrown. */
  lemma LastHandIsEmpty(s: State, trick: seq<Card>)
    requires InTrick(s, trick) && |trick| < 4
    ensures s.currentTurn < |s.players| && (Possible(s) == [] <==> s.handNo == 14)
    ensures s.players[s.currentTurn].currentCard == None && 1 <= s.handNo <= 14
    ensures s.handNo == 14 ==> s.firstCard == None && s.turnNo == 56
  {
    TurnHasNotThrown(s, trick);
    if s.handNo <= 13 {
      SomeCardIsPossible(s, trick);
    } else if Possible(s) != [] {
      LastHandHasNoCards(s, trick, Possible(s)[0]);
    }
  }

  /** One turn more without a card on the table is no trick any more. */
  lemma NoTrickToCount(s: State, t: State, trick: seq<Card>)
    requires InTrick(s, trick) && t.turnNo == s.turnNo + 1 && t.handNo == s.handNo
    ensures !InTrick(t, trick)
  {
  }

  lemma TurnHasNotThrown(s: State, trick: seq<Card>)
    requires InTrick(s, trick) && |trick| < 4
    ensures s.currentTurn < |s.players| && s.players[s.currentTurn].currentCard == None
  {
  }

  lemma TrickIsLed(s: State, trick: seq<Card>)
    requires InTrick(s, trick)
    ensures s.turnNo % 4 != 0 ==> s.firstCard.Some?
  {
  }

  /** The turn counter tells how many cards lie. */
  lemma TrickFills(s: State, trick: seq<Card>)
    requires InTrick(s, trick)
    ensures s.turnNo % 4 == 0 && s.turnNo > 6 && trick != [] <==> |trick| == 4
    ensures s.gameStatus == Playing && s.turnNo == 4 * s.handNo + |trick| && 1 <= s.handNo && |s.players| == 4
  {
    hide Led, HandsCount, Tricks, OnTable;
    FourSeats(s.players, s.dealer, trick);
    if |trick| < 4 {
      CardsOnTable(s.handNo, |trick|);
    } else {
      CardsOnTable(s.handNo + 1, 0);
    }
  }

  lemma NextTrick(s: State)
    requires InTrick(s, [])
    ensures s.gameStatus == Playing && |s.players| == 4
  {
  }

  lemma AllThrown(s: State, trick: seq<Card>)
    requires InTrick(s, trick) && s.handNo == 14
    ensures trick == [] && Tricks(s.players) == 13
    ensures forall i :: 0 <= i < 4 ==> CountThrown(s.players[i].cards) == |s.players[i].cards| == MAX_HANDS
  {
    forall i | 0 <= i < 4
      ensures s.players[i].currentCard == None
    {
      var n: nat := if i >= s.dealer then i - s.dealer else i + 4 - s.dealer;
      assert After(s.dealer, n) == i;
    }
  }

  function BidPlaced(s: State, hand: nat): State
    requires s.currentTurn < |s.players|
  {
    s.(players := s.players[s.currentTurn := s.players[s.currentTurn].(handBid := hand)], turnNo := s.turnNo + 1,
       currentTurn := After(s.currentTurn, 1), gameStatus := if s.turnNo + 1 == 4 then Playing else s.gameStatus)
  }

  lemma BidKeepsHands(players: seq<CbrPlayer>, seat: nat, hand: nat)
    requires Untouched(players) && seat < 4
    ensures Untouched(players[seat := players[seat].(handBid := hand)])
  {
    hide HoldsHand, CountThrown;
  }

  /** After four bids the dealer leads to the first trick. */
  lemma FirstTrick(s: State)
    requires Untouched(s.players) && s.handNo == 1 && s.turnNo == 4
    requires s.dealer < 4 && s.currentTurn == After(s.dealer, 4)
    requires s.firstCard == None && s.leadCard == None && s.gameStatus == Playing
    ensures InTrick(s, [])
  {
    hide CountThrown, HoldsHand;
    NoTricks(s.players);
  }

  lemma {:induction false} NoTricks(players: seq<CbrPlayer>)
    requires forall i :: 0 <= i < |players| ==> players[i].currentHand == 0
    ensures Tricks(players) == 0
  {
    if players != [] {
      NoTricks(players[..|players| - 1]);
    }
  }
}
