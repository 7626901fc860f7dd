/** The betting of one Skill Patti table: start, ante, chaal, raise, all-in, pack, sideshow, showdown and refund. */
module SkillPatti {
  import opened Options
  import opened SubWallets
  import opened SkillPattiMoney
  import opened SkillPattiPayout

  datatype GameStatus =
    | Waiting | RoundStarted | InitialBetting | Dealing | Playing | InSideshow | InShowdown | RoundEnded | GameEnded

  /** What a call costs: twice the chaal amount for a player who has seen the own cards before they are revealed. */
  function CallAmount(p: SpPlayer, chaalAmount: real, hidden: bool): real {
    if p.seen && hidden then chaalAmount * 2.0 else chaalAmount
  }

  /** The last active player has called: nobody is left to bet against. */
  predicate IsCalled(active: seq<SpPlayer>, chaalAmount: real) {
    |active| == 1 && active[0].lastBetAmount >= chaalAmount
  }

  /** A seat at the start of a round: no bets, in the round if the balance exceeds the ante. */
  function ResetSeat(p: SpPlayer, initialBetAmount: real, c: real): SpPlayer
    requires IsCommission(c)
  {
    p.(dealt := false, active := Balance(p.amount, c) > initialBetAmount && !p.rebuying, betAmount := 0.0,
       lastBetAmount := 0.0, sidepot := 0.0, seen := false, allin := false, chaalAfterSeen := false)
  }

  lemma {:induction false} ResetSums(before: seq<SpPlayer>, reset: seq<SpPlayer>, initialBetAmount: real, c: real)
    requires IsCommission(c)
    requires |reset| == |before|
    requires forall j :: 0 <= j < |before| ==> reset[j] == ResetSeat(before[j], initialBetAmount, c)
    ensures Bets(reset) == 0.0 && Money(reset) == Money(before)
  {
    hide Balance;
    if before != [] {
      ResetSums(before[..|before| - 1], reset[..|before| - 1], initialBetAmount, c);
    }
  }

  /** After a pack the round is over with nobody left to bet, a lone caller, or a single player in for the pot. */
  predicate PackEnds(players: seq<SpPlayer>, chaalAmount: real) {
    var active := ActivePlayers(players);
    active == [] || IsCalled(active, chaalAmount) || |AllinPlayers(players)| + |active| <= 1
  }

  // ---------- what follows an action ----------

  /** What the requests change at a table. */
  datatype State = State(
    players: seq<SpPlayer>, potAmount: real, chaalAmount: real, hidden: bool, commonCard: bool,
    currentTurn: PlayerId, dealerId: PlayerId, turnNo: nat, roundNo: nat, gameStatus: GameStatus)

  predicate IsClosed(gameStatus: GameStatus) {
    gameStatus == RoundEnded || gameStatus == GameEnded
  }

  /** Nobody is left to bet, or one player has called alone, or the pot is full. */
  predicate IsOver(s: State, limit: real) {
    ActivePlayers(s.players) == [] || IsCalled(ActivePlayers(s.players), s.chaalAmount) || s.potAmount >= limit
  }

  /** The cards are shown once they are dealt: who still bets has seen them, and a call costs twice as much. */
  function Revealed(s: State): State {
    if s.commonCard && s.hidden then
      s.(hidden := false, chaalAmount := s.chaalAmount * 2.0, players := RevealedAll(s.players))
    else s
  }

  /** The same if everybody who still bets has looked. */
  function RevealedIfSeen(s: State): State {
    if AllSeen(ActivePlayers(s.players)) then Revealed(s) else s
  }

  function Ended(s: State): State {
    if s.gameStatus == GameEnded then s else Revealed(s.(gameStatus := RoundEnded))
  }

  /** The turn passes, or stays after a sideshow, or the round ends. */
  function Passed(s: State, isSideshow: bool, limit: real): State {
    if IsClosed(s.gameStatus) then s
    else if IsOver(s, limit) then Ended(s)
    else if !isSideshow then
      s.(currentTurn := NextActivePlayer(s.players, s.currentTurn).playerId, turnNo := s.turnNo + 1,
         gameStatus := Playing)
    else if SeatOfPlayer(s.players, s.currentTurn) == |s.players| then s
    else s.(turnNo := s.turnNo + 1, gameStatus := Playing)
  }

  /** The seat of the given user, or else of the player on turn. */
  function SeatToPack(s: State, userId: Option<UserId>): (i: nat)
    ensures i <= |s.players|
  {
    if userId.Some? then SeatOfUser(s.players, userId.value) else SeatOfPlayer(s.players, s.currentTurn)
  }

  /** With one player less the round ends, or all cards are revealed, or the turn passes. */
  function WithOneLess(s: State, named: bool, limit: real): State {
    if PackEnds(s.players, s.chaalAmount) then Ended(s)
    else if AllSeen(ActivePlayers(s.players)) && s.hidden then Revealed(s)
    else Passed(s, named, limit)
  }

  function PackedSeat(s: State, i: nat): State
    requires i < |s.players|
  {
    s.(players := s.players[i := s.players[i].(active := false)], turnNo := s.turnNo + 1, gameStatus := Playing)
  }

  /** A pack; when no such player is in the round only a named one passes the turn on. */
  function AfterPack(s: State, userId: Option<UserId>, limit: real): State {
    var i := SeatToPack(s, userId);
    if i == |s.players| || (!s.players[i].active && !s.players[i].dealt) then
      if userId.Some? then Passed(s, true, limit) else s
    else WithOneLess(PackedSeat(s, i), userId.Some?, limit)
  }

  /** After an all-in: the cards are revealed if that is due, then the round ends if it was decided before. */
  function AfterAllin(s: State, limit: real): State {
    if IsOver(s, limit) then Ended(RevealedIfSeen(s)) else Passed(RevealedIfSeen(s), false, limit)
  }

  function Max(a: real, b: real): real { if a > b then a else b }

  class SpTable {
    const potLimit: real
    const initialBetAmount: real
    const bonusCommission: real
    var players: seq<SpPlayer>
    var potAmount: real
    var chaalAmount: real
    var hidden: bool
    var commonCard: bool
    var currentTurn: PlayerId
    var dealerId: PlayerId
    var turnNo: nat
    var roundNo: nat
    var gameStatus: GameStatus

    /** While the round is on the pot stays below its limit. */
    ghost predicate Valid()
      reads this
    {
      Sound() && (IsClosed(gameStatus) || potAmount < potLimit)
    }

    ghost predicate Sound()
      reads this
    {
      && IsCommission(bonusCommission) && initialBetAmount > 0.0
      && initialBetAmount * |players| as real < potLimit
      && AllSolvent(players, bonusCommission)
      && potAmount == Bets(players)
      && 0.0 <= potAmount <= potLimit
      && chaalAmount > 0.0
      && (gameStatus == RoundStarted ==> Anteing())
    }

    /**
     * Between the start of a round and the ante nobody has bet, and every active player can pay the ante and keep
     * some.
     */
    ghost predicate Anteing()
      reads this
      requires IsCommission(bonusCommission)
    {
      forall i :: 0 <= i < |players| ==>
        && players[i].betAmount == 0.0
        && (players[i].active ==> Balance(players[i].amount, bonusCommission) > initialBetAmount)
    }

    /** All money at the table. */
    ghost function Total(): real
      reads this
    {
      Money(players) + potAmount
    }

    function Now(): (s: State)
      reads this
    {
      State(players, potAmount, chaalAmount, hidden, commonCard, currentTurn, dealerId, turnNo, roundNo, gameStatus)
    }

    constructor (seats: seq<SpPlayer>, limit: real, initialBet: real, commission: real)
      requires IsCommission(commission) && initialBet > 0.0 && initialBet * |seats| as real < limit
      requires forall i :: 0 <= i < |seats| ==>
                 seats[i].amount.NonNegative() && seats[i].betAmount == seats[i].sidepot == 0.0 && !seats[i].active
      ensures Valid() && Now() == State(seats, 0.0, initialBet, true, false, 0, 0, 0, 0, Waiting)
      ensures potLimit == limit && initialBetAmount == initialBet && bonusCommission == commission
    {
      potLimit, initialBetAmount, bonusCommission := limit, initialBet, commission;
      players, potAmount, chaalAmount, hidden, commonCard := seats, 0.0, initialBet, true, false;
      currentTurn, dealerId, turnNo, roundNo, gameStatus := 0, 0, 0, 0, Waiting;
      new;
      NoBets(seats);
    }

    // ---------- one bet ----------

    /** Puts an amount from a seat into the pot; the seat's other fields become those of `marked`. */
    method PlaceBet(i: nat, amount: real, lastBet: real, marked: SpPlayer)
      requires IsCommission(bonusCommission) && AllSolvent(players, bonusCommission) && potAmount == Bets(players)
      requires i < |players| && 0.0 <= amount <= Balance(players[i].amount, bonusCommission)
      requires marked.amount == players[i].amount && marked.betAmount == players[i].betAmount
      requires marked.sidepot >= 0.0 && (marked.active ==> amount < Balance(players[i].amount, bonusCommission))
      modifies this`players, this`potAmount
      ensures players == old(players)[i := AfterBet(marked, amount, lastBet, bonusCommission)]
      ensures potAmount == old(potAmount) + amount
      ensures AllSolvent(players, bonusCommission) && potAmount == Bets(players) && Total() == old(Total())
      ensures players[i].betAmount == old(players)[i].betAmount + amount && players[i].lastBetAmount == lastBet
      ensures players[i].active == marked.active
      ensures Balance(players[i].amount, bonusCommission) == old(Balance(players[i].amount, bonusCommission)) - amount
    {
      hide Balance, Bets, Money, AfterBet, AllSolvent;
      var better := AfterBet(marked, amount, lastBet, bonusCommission);
      ghost var _ := BetMovesMoney(players, i, amount, lastBet, bonusCommission, marked);
      players := players[i := better];
      potAmount := potAmount + amount;
    }

    // ---------- starting a round ----------

    /** A round starts with empty bets and an empty pot, whatever is in it. */
    method StartRound(nextDealer: PlayerId) returns (ok: bool)
      requires Valid()
      modifies this
      ensures Valid()
      ensures ok <==> old(gameStatus) in {Waiting, RoundEnded}
      ensures !ok ==> unchanged(this)
      ensures ok ==> gameStatus == RoundStarted && potAmount == 0.0 && chaalAmount == initialBetAmount
                     && hidden && !commonCard
                     && roundNo == old(roundNo) + 1 && turnNo == old(turnNo)
                     && currentTurn == dealerId == if turnNo == 0 then 1 else nextDealer
      ensures ok ==> |players| == |old(players)| && forall i :: 0 <= i < |players| ==>
                       players[i] == ResetSeat(old(players)[i], initialBetAmount, bonusCommission)
      ensures ok ==> Total() == old(Total()) - old(potAmount)
    {
      hide Balance, Bets, Money;
      if gameStatus != Waiting && gameStatus != RoundEnded {
        return false;
      }
      chaalAmount := initialBetAmount;
      dealerId := if turnNo == 0 then 1 else nextDealer;
      currentTurn := dealerId;
      hidden, potAmount, commonCard := true, 0.0, false;
      var reset: seq<SpPlayer> := [];
      for i := 0 to |players|
        invariant |reset| == i
        invariant forall j :: 0 <= j < i ==> reset[j] == ResetSeat(players[j], initialBetAmount, bonusCommission)
      {
        reset := reset + [ResetSeat(players[i], initialBetAmount, bonusCommission)];
      }
      ResetSums(players, reset, initialBetAmount, bonusCommission);
      players := reset;
      roundNo := roundNo + 1;
      gameStatus := RoundStarted;
      return true;
    }

    // ---------- ante and cards ----------

    /** Every active player pays the ante. */
    method InitialBet() returns (ok: bool)
      requires Valid()
      modifies this
      ensures Valid() && Total() == old(Total())
      ensures ok <==> old(gameStatus) == RoundStarted
      ensures !ok ==> unchanged(this)
      ensures ok ==> gameStatus == InitialBetting && chaalAmount == initialBetAmount
      ensures ok ==> |players| == |old(players)| && forall i :: 0 <= i < |players| ==>
                       players[i] == if old(players)[i].active
                                     then AfterBet(old(players)[i], initialBetAmount, 0.0, bonusCommission)
                                     else old(players)[i]
      ensures ok ==> Now() == old(Now()).(players := players, potAmount := potAmount, chaalAmount := initialBetAmount,
                                          gameStatus := InitialBetting)
    {
      hide Balance, Bets, Money, AfterBet;
      if gameStatus != RoundStarted {
        return false;
      }
      var n := |players|;
      for i := 0 to n
        invariant |players| == n && AllSolvent(players, bonusCommission) && potAmount == Bets(players)
        invariant Total() == old(Total()) && Now() == old(Now()).(players := players, potAmount := potAmount)
        invariant potAmount <= old(potAmount) + initialBetAmount * i as real && potAmount >= 0.0
        invariant forall j :: i <= j < n ==> players[j] == old(players)[j]
        invariant forall j :: 0 <= j < i ==>
                    players[j] == if old(players)[j].active
                                  then AfterBet(old(players)[j], initialBetAmount, 0.0, bonusCommission)
                                  else old(players)[j]
      {
        if players[i].active {
          PlaceBet(i, initialBetAmount, 0.0, players[i]);
        }
      }
      AnteFits(initialBetAmount, n, potLimit, potAmount, old(potAmount), old(players));
      chaalAmount, gameStatus := initialBetAmount, InitialBetting;
      return true;
    }

    /** Cards for the active players and the common card. */
    method DealCards() returns (ok: bool)
      requires Valid()
      modifies this
      ensures Valid() && Total() == old(Total())
      ensures ok <==> old(gameStatus) !in {RoundEnded, GameEnded}
      ensures !ok ==> unchanged(this)
      ensures ok ==> Now() == old(Now()).(players := DealtAll(old(players)), commonCard := true, hidden := true,
          gameStatus := Dealing)
    {
      hide Balance, Bets, Money;
      if gameStatus == RoundEnded || gameStatus == GameEnded {
        return false;
      }
      players := DealtAll(players);
      FlagsOnly(old(players), players, bonusCommission);
      commonCard, hidden, gameStatus := true, true, Dealing;
      return true;
    }

    // ---------- betting ----------

    /** Whose turn it is to bet, and whether the seat still takes part. */
    predicate IsOnTurn(i: nat)
      reads this`players, this`currentTurn
    {
      i < |players| && players[i].active && players[i].playerId == currentTurn
    }

    /** What a call moves: the call amount, cut to what the pot limit leaves. */
    function CappedCall(i: nat): real
      requires i < |players|
      reads this`players, this`chaalAmount, this`hidden, this`potAmount
    {
      Min(potLimit - potAmount, CallAmount(players[i], chaalAmount, hidden))
    }

    /** The betting is over once one player has called alone or the pot is full. */
    predicate IsDecided()
      reads this`players, this`chaalAmount, this`potAmount
    {
      IsCalled(ActivePlayers(players), chaalAmount) || potAmount >= potLimit
    }

    /** chaalBet, on a table that is already marked as playing, in a sideshow or in a showdown. */
    method ChaalBet(userId: UserId, during: GameStatus) returns (ok: bool)
      requires Valid()
      modifies this
      ensures Valid() && Total() == old(Total())
      ensures var i := SeatOfUser(old(players), userId);
              && (ok <==> during in {Playing, InSideshow, InShowdown} && old(IsOnTurn(i))
                          && 0.0 <= old(CappedCall(i)) < Balance(old(players)[i].amount, bonusCommission))
              && (ok ==> Now() == AfterCall(old(Now()), i, old(CappedCall(i)), bonusCommission)
                                  .(gameStatus := if IsDecided() then RoundEnded else during))
      ensures !ok ==> unchanged(this)
    {
      hide Balance, Bets, Money, AfterBet, AllSolvent, ActivePlayers;
      var i := SeatOfUser(players, userId);
      if i == |players| || !players[i].active {
        return false;
      }
      if during != Playing && during != InSideshow && during != InShowdown {
        return false;
      }
      if players[i].playerId != currentTurn {
        return false;
      }
      var amount := CallAmount(players[i], chaalAmount, hidden);
      var limitAmount := potLimit - potAmount;
      if amount > limitAmount {
        amount := limitAmount;
      }
      if amount >= Balance(players[i].amount, bonusCommission) {
        return false;
      }
      if amount < 0.0 {
        return false;
      }
      BetBelowBalance(i, amount, chaalAmount, during);
      return true;
    }

    /** A call or a raise that has been checked; the last bet is the chaal amount from then on. */
    method BetBelowBalance(i: nat, amount: real, lastBet: real, during: GameStatus)
      requires Valid() && i < |players| && 0.0 <= amount < Balance(players[i].amount, bonusCommission)
      requires amount <= potLimit - potAmount && lastBet > 0.0 && during in {Playing, InSideshow, InShowdown}
      modifies this
      ensures Valid() && Total() == old(Total())
      ensures Now() == AfterCall(old(Now()).(chaalAmount := lastBet), i, amount, bonusCommission)
                       .(gameStatus := if IsDecided() then RoundEnded else during)
    {
      hide Balance, Bets, Money, AfterBet, AllSolvent, ActivePlayers, IsCalled, CallAmount;
      StakeIsPositive(players, i, bonusCommission);
      PlaceBet(i, amount, lastBet, players[i]);
      chaalAmount := lastBet;
      turnNo := turnNo + 1;
      gameStatus := if IsDecided() then RoundEnded else during;
    }

    function CallAmountOf(userId: UserId): real
      reads this`players, this`chaalAmount, this`hidden
    {
      var i := SeatOfUser(players, userId);
      if i < |players| then CallAmount(players[i], chaalAmount, hidden) else 0.0
    }

    /**
     * A raise is more than a call, or less when the pot limit leaves no room for a call; it must leave something in
     * the wallet.
     */
    method RaiseBet(userId: UserId, amount: real) returns (ok: bool)
      requires Valid()
      modifies this
      ensures Valid() && Total() == old(Total())
      ensures var i := SeatOfUser(old(players), userId);
              && (ok <==> old(gameStatus) == Playing && old(IsOnTurn(i))
                          && 0.0 < amount < Balance(old(players)[i].amount, bonusCommission)
                          && amount <= potLimit - old(potAmount)
                          && (old(CallAmountOf(userId)) <= potLimit - old(potAmount) ==>
                            amount > old(CallAmountOf(userId))))
              && (ok ==> Now() == AfterRaise(old(Now()), i, amount, bonusCommission)
                                  .(gameStatus := if IsDecided() then RoundEnded else Playing))
      ensures !ok ==> unchanged(this)
    {
      hide Balance, Bets, Money, AfterBet, AllSolvent, ActivePlayers;
      var i := SeatOfUser(players, userId);
      if i == |players| || gameStatus != Playing || !players[i].active || players[i].playerId != currentTurn {
        return false;
      }
      if amount >= Balance(players[i].amount, bonusCommission) || amount <= 0.0 {
        return false;
      }
      var call := CallAmount(players[i], chaalAmount, hidden);
      var limitAmount := potLimit - potAmount;
      if limitAmount >= call && amount <= call {
        return false;
      }
      if amount > limitAmount {
        return false;
      }
      BetBelowBalance(i, amount, amount, Playing);
      return true;
    }

    /** The whole balance goes into the pot; the player stops betting but stays in for the pot as it is then. */
    method AllinBet(userId: UserId) returns (ok: bool)
      requires Valid()
      modifies this
      ensures Valid() && Total() == old(Total())
      ensures var i := SeatOfUser(old(players), userId);
              && (ok <==> old(gameStatus) == Playing && old(IsOnTurn(i))
                          && Balance(old(players)[i].amount, bonusCommission) <= potLimit - old(potAmount))
              && (ok ==> |players| == |old(players)| && Balance(players[i].amount, bonusCommission) == 0.0
                         && Now() == AfterAllinBet(old(Now()), i, bonusCommission)
                                     .(gameStatus := if IsOver(Now(), potLimit) then RoundEnded else Playing))
      ensures !ok ==> unchanged(this)
    {
      hide Balance, Bets, Money, AfterBet, AllSolvent, ActivePlayers;
      var i := SeatOfUser(players, userId);
      if i == |players| || gameStatus != Playing || !players[i].active || players[i].playerId != currentTurn {
        return false;
      }
      var stake := Balance(players[i].amount, bonusCommission);
      if stake > potLimit - potAmount {
        return false;
      }
      BetAll(i);
      return true;
    }

    method BetAll(i: nat)
      requires Valid() && i < |players| && Balance(players[i].amount, bonusCommission) <= potLimit - potAmount &&
          gameStatus == Playing
      modifies this
      ensures Valid() && Total() == old(Total())
      ensures |players| == |old(players)| && Balance(players[i].amount, bonusCommission) == 0.0
      ensures Now() == AfterAllinBet(old(Now()), i, bonusCommission)
                       .(gameStatus := if IsOver(Now(), potLimit) then RoundEnded else Playing)
    {
      hide Balance, Bets, Money, AfterBet, AllSolvent, ActivePlayers;
      var stake := Balance(players[i].amount, bonusCommission);
      StakeIsPositive(players, i, bonusCommission);
      PlaceBet(i, stake, stake, AllinSeat(players[i], potAmount + stake));
      if stake > chaalAmount {
        chaalAmount := stake;
      }
      turnNo := turnNo + 1;
      if IsOver(Now(), potLimit) {
        gameStatus := RoundEnded;
      }
    }

    // ---------- the end of a turn and of a round ----------

    /** Shows everybody's cards once they are dealt: a call then costs twice as much for all alike. */
    method RevealCards()
      requires Sound()
      modifies this
      ensures Sound() && (old(Valid()) ==> Valid()) && Total() == old(Total()) && potAmount == old(potAmount)
      ensures SameMoney(old(players), players) && Now() == Revealed(old(Now()))
    {
      hide Balance, Bets, Money;
      if !commonCard || !hidden {
        return;
      }
      hidden, chaalAmount := false, chaalAmount * 2.0;
      players := RevealedAll(players);
      FlagsOnly(old(players), players, bonusCommission);
    }

    method RoundEnd()
      requires Sound()
      modifies this
      ensures Valid() && Total() == old(Total()) && potAmount == old(potAmount)
      ensures SameMoney(old(players), players) && Now() == Ended(old(Now()))
    {
      if gameStatus == GameEnded {
        return;
      }
      gameStatus := RoundEnded;
      if hidden {
        RevealCards();
      }
    }

    /** Passes the turn, or ends the round when it is decided. */
    method Next(isSideshow: bool)
      requires Sound()
      modifies this
      ensures Valid() && Total() == old(Total()) && potAmount == old(potAmount)
      ensures SameMoney(old(players), players) && Now() == Passed(old(Now()), isSideshow, potLimit)
    {
      hide Balance, Bets, Money, ActivePlayers, AllSolvent, Revealed, NextActivePlayer, SeatOfPlayer, IsCalled;
      if gameStatus == RoundEnded || gameStatus == GameEnded {
        return;
      }
      if ActivePlayers(players) == [] || IsDecided() {
        RoundEnd();
        return;
      }
      if !isSideshow {
        SomebodyActive(players);
        currentTurn := NextActivePlayer(players, currentTurn).playerId;
      } else if SeatOfPlayer(players, currentTurn) == |players| {
        return;
      }
      turnNo := turnNo + 1;
      gameStatus := Playing;
    }

    // ---------- the requests of players ----------

    method Chaal(userId: UserId) returns (ok: bool)
      requires Valid()
      modifies this
      ensures Valid() && Total() == old(Total())
      ensures !ok ==> unchanged(this)
      ensures var i := SeatOfUser(old(players), userId);
              && (ok <==> old(gameStatus) == Playing && old(IsOnTurn(i))
                          && old(CappedCall(i)) < Balance(old(players)[i].amount, bonusCommission))
              && (ok ==>
                    Now() == Passed(AfterCall(old(Now()), i, old(CappedCall(i)), bonusCommission), false, potLimit))
    {
      hide Balance, Bets, Money, AfterBet, AllSolvent, ActivePlayers, SameMoney;
      if gameStatus != Playing {
        return false;
      }
      ok := ChaalBet(userId, Playing);
      if ok {
        if IsDecided() {
          RoundEnd();
        } else {
          Next(false);
        }
      }
    }

    method Raise(userId: UserId, amount: real) returns (ok: bool)
      requires Valid()
      modifies this
      ensures Valid() && Total() == old(Total())
      ensures !ok ==> unchanged(this)
      ensures var i := SeatOfUser(old(players), userId);
              && (ok <==> old(gameStatus) == Playing && old(IsOnTurn(i))
                          && 0.0 < amount < Balance(old(players)[i].amount, bonusCommission)
                          && amount <= potLimit - old(potAmount)
                          && (old(CallAmountOf(userId)) <= potLimit - old(potAmount) ==>
                            amount > old(CallAmountOf(userId))))
              && (ok ==> Now() == Passed(AfterRaise(old(Now()), i, amount, bonusCommission), false, potLimit))
    {
      hide Balance, Bets, Money, AfterBet, AllSolvent, ActivePlayers, SameMoney;
      ok := RaiseBet(userId, amount);
      if ok {
        if IsDecided() {
          RoundEnd();
        } else {
          Next(false);
        }
      }
    }

    /** All-in, and the cards are revealed when everybody still betting has seen the own ones. */
    method Allin(userId: UserId) returns (ok: bool)
      requires Valid()
      modifies this
      ensures Valid() && Total() == old(Total())
      ensures !ok ==> unchanged(this)
      ensures var i := SeatOfUser(old(players), userId);
              && (ok <==> old(gameStatus) == Playing && old(IsOnTurn(i))
                          && Balance(old(players)[i].amount, bonusCommission) <= potLimit - old(potAmount))
              && (ok ==> Now() == AfterAllin(AfterAllinBet(old(Now()), i, bonusCommission), potLimit))
    {
      hide Balance, Bets, Money, AfterBet, AllSolvent, ActivePlayers, SameMoney;
      ok := AllinBet(userId);
      if ok {
        var active := ActivePlayers(players);
        var decided := active == [] || IsDecided();
        RevealKeepsActive(players);
        if AllSeen(active) && hidden {
          RevealCards();
        }
        if decided {
          RoundEnd();
        } else {
          Next(false);
        }
      }
    }

    /**
     * Packs the player on turn, or the given one. That the round is still on is not asked; after it a pack may open the
     * round again, with a full pot.
     */
    method Pack(userId: Option<UserId>)
      requires Sound()
      modifies this
      ensures Sound() && (potAmount < potLimit ==> Valid()) && Total() == old(Total()) && potAmount == old(potAmount)
      ensures Now() == AfterPack(old(Now()), userId, potLimit)
    {
      hide Balance, Bets, Money, ActivePlayers, SameMoney, AllSolvent, Passed, WithOneLess, PackedSeat;
      var i := SeatToPack(Now(), userId);
      if i == |players| || (!players[i].active && !players[i].dealt) {
        if userId.Some? {
          Next(true);
        }
        return;
      }
      PackSeat(i, userId.Some?);
    }

    method PackSeat(i: nat, named: bool)
      requires Sound() && i < |players|
      modifies this
      ensures Sound() && Total() == old(Total()) && potAmount == old(potAmount)
      ensures Now() == WithOneLess(PackedSeat(old(Now()), i), named, potLimit)
    {
      hide Balance, Bets, Money, ActivePlayers, SameMoney, AllSolvent, Passed, WithOneLess;
      Deactivate(i);
      turnNo := turnNo + 1;
      gameStatus := Playing;
      GoOnWithOneLess(named);
    }

    method GoOnWithOneLess(named: bool)
      requires Sound() && gameStatus == Playing
      modifies this
      ensures Sound() && Total() == old(Total()) && potAmount == old(potAmount)
      ensures Now() == WithOneLess(old(Now()), named, potLimit)
    {
      hide Balance, Bets, Money, ActivePlayers, AllinPlayers, SameMoney, AllSolvent, Passed, Revealed, Ended,
           PackEnds, AllSeen;
      EndedOnce(Now());
      var active := ActivePlayers(players);
      if PackEnds(players, chaalAmount) {
        gameStatus := RoundEnded;
        RoundEnd();
        return;
      }
      if AllSeen(active) && hidden {
        RevealCards();
      } else {
        Next(named);
      }
    }

    method Deactivate(i: nat)
      requires IsCommission(bonusCommission) && AllSolvent(players, bonusCommission) && i < |players|
      modifies this`players
      ensures players == old(players)[i := old(players)[i].(active := false)]
      ensures AllSolvent(players, bonusCommission) && Bets(players) == Bets(old(players)) &&
          Money(players) == Money(old(players))
      ensures SameMoney(old(players), players) && forall j :: 0 <= j < |players| ==> players[j].active ==>
          old(players)[j].active
    {
      hide Balance, Bets, Money;
      players := players[i := players[i].(active := false)];
      FlagsOnly(old(players), players, bonusCommission);
    }

    method PackCards(userId: UserId) returns (ok: bool)
      requires Valid()
      modifies this
      ensures Valid() && Total() == old(Total()) && potAmount == old(potAmount)
      ensures !ok ==> unchanged(this)
      ensures var i := SeatOfPlayer(old(players), old(currentTurn));
              && (ok <==> old(gameStatus) == Playing && i < |old(players)| && old(players)[i].userId == userId)
              && (ok ==> Now() == AfterPack(old(Now()), None, potLimit))
    {
      hide Balance, Bets, Money, ActivePlayers, AllSolvent, PackEnds;
      var i := SeatOfPlayer(players, currentTurn);
      if gameStatus != Playing || i == |players| || players[i].userId != userId {
        return false;
      }
      Pack(None);
      return true;
    }

    /** Looks at the own cards; when every active player has, the cards are revealed. */
    method See(userId: UserId) returns (ok: bool)
      requires Valid()
      modifies this
      ensures Valid() && Total() == old(Total()) && potAmount == old(potAmount)
      ensures !ok ==> unchanged(this)
      ensures var i := SeatOfUser(old(players), userId);
              && (ok <==> old(gameStatus) in {Playing, InSideshow} && i < |old(players)| && old(players)[i].active)
              && (ok ==> Now() == RevealedIfSeen(old(Now()).(players := Looked(old(players), i))))
    {
      hide Balance, Bets, Money, ActivePlayers;
      var i := SeatOfUser(players, userId);
      if (gameStatus != Playing && gameStatus != InSideshow) || i == |players| || !players[i].active {
        return false;
      }
      players := Looked(players, i);
      FlagsOnly(old(players), players, bonusCommission);
      if AllSeen(ActivePlayers(players)) && hidden {
        RevealCards();
      }
      return true;
    }

    /** Two players left: one calls and the round ends. The status of the table is not asked. */
    method Showdown(userId: UserId) returns (ok: bool)
      requires Valid()
      modifies this
      ensures Valid() && Total() == old(Total())
      ensures !ok ==> unchanged(this)
      ensures var i := SeatOfUser(old(players), userId);
              ok <==> |ActivePlayers(old(players))| == 2 && old(IsOnTurn(i))
                      && old(potAmount + CallAmountOf(userId)) < potLimit
                      && old(CallAmountOf(userId)) < Balance(old(players)[i].amount, bonusCommission)
      ensures ok ==> gameStatus == RoundEnded && potAmount == old(potAmount) + old(CallAmountOf(userId)) < potLimit
                     && Now() == Ended(AfterCall(old(Now()), SeatOfUser(old(players), userId),
                         old(CallAmountOf(userId)), bonusCommission)
                                       .(gameStatus := InShowdown))
    {
      hide Balance, Bets, Money, AfterBet, AllSolvent, ActivePlayers, SameMoney;
      var i := SeatOfUser(players, userId);
      if |ActivePlayers(players)| != 2 || i == |players| {
        return false;
      }
      if potLimit - potAmount <= CallAmount(players[i], chaalAmount, hidden) {
        return false;
      }
      ok := ChaalBet(userId, InShowdown);
      if ok {
        RoundEnd();
      }
    }

    /** Calls and asks the player before to compare cards; the answer or its timeout goes on with the round. */
    method Sideshow(userId: UserId) returns (ok: bool)
      requires Valid()
      modifies this
      ensures Valid() && Total() == old(Total())
      ensures !ok ==> unchanged(this)
      ensures var i := SeatOfUser(old(players), userId);
              ok <==> old(gameStatus) == Playing && |ActivePlayers(old(players))| >= 3 && old(IsOnTurn(i))
                      && old(players)[i].seen && PreviousActivePlayer(old(players), old(currentTurn)).seen
                      && old(potAmount + CallAmountOf(userId)) < potLimit
                      && old(CallAmountOf(userId)) < Balance(old(players)[i].amount, bonusCommission)
      ensures ok ==> potAmount == old(potAmount) + old(CallAmountOf(userId)) < potLimit
                     && Now() == AfterCall(old(Now()), SeatOfUser(old(players), userId), old(CallAmountOf(userId)),
                         bonusCommission)
                                 .(turnNo := old(turnNo) + 2,
                                   gameStatus := if IsDecided() then RoundEnded else InSideshow)
    {
      hide Balance, Bets, Money, AfterBet, AllSolvent, ActivePlayers;
      var i := SeatOfUser(players, userId);
      if gameStatus != Playing || |ActivePlayers(players)| < 3 || i == |players| {
        return false;
      }
      var previousPlayer := PreviousActivePlayer(players, currentTurn);
      if potLimit - potAmount <= CallAmount(players[i], chaalAmount, hidden) {
        return false;
      }
      if !players[i].seen || !previousPlayer.seen {
        return false;
      }
      ok := ChaalBet(userId, InSideshow);
      if ok {
        turnNo := turnNo + 1;
      }
    }

    /** The answer to a sideshow; `winner` is the player with the better cards, if there is one. */
    method SideshowRes(userId: UserId, accepted: bool, winner: Option<PlayerId>) returns (ok: bool)
      requires Valid()
      modifies this
      ensures Valid() && Total() == old(Total()) && potAmount == old(potAmount)
      ensures !ok ==> unchanged(this)
      ensures var i := SeatOfUser(old(players), userId);
              ok <==> old(gameStatus) == InSideshow && ActivePlayers(old(players)) != [] && i < |old(players)|
                      && old(players)[i].playerId == PreviousActivePlayer(old(players), old(currentTurn)).playerId
      ensures ok ==> players == (if accepted && winner.Some?
                                 then WithoutLoser(old(players), Loser(old(players), old(currentTurn), winner.value))
                                 else old(players))
                     && Now() == old(Now()).(players := players, gameStatus := Playing, turnNo := old(turnNo) + 1,
                                             currentTurn := NextActivePlayer(players, old(currentTurn)).playerId)
    {
      hide Balance, Bets, Money, ActivePlayers, AllSolvent, Loser, WithoutLoser, NextActivePlayer,
           PreviousActivePlayer;
      if gameStatus != InSideshow || ActivePlayers(players) == [] {
        return false;
      }
      var i := SeatOfUser(players, userId);
      var receivePlayer := PreviousActivePlayer(players, currentTurn);
      if i == |players| || players[i].playerId != receivePlayer.playerId {
        return false;
      }
      Answer(accepted, winner);
      return true;
    }

    method Answer(accepted: bool, winner: Option<PlayerId>)
      requires Valid() && gameStatus == InSideshow && ActivePlayers(players) != []
      modifies this
      ensures Valid() && Total() == old(Total()) && potAmount == old(potAmount)
      ensures |players| == |old(players)| && players != []
      ensures players == if accepted && winner.Some?
                         then WithoutLoser(old(players), Loser(old(players), old(currentTurn), winner.value))
                         else old(players)
      ensures Now() == old(Now()).(players := players, gameStatus := Playing, turnNo := old(turnNo) + 1,
                                   currentTurn := NextActivePlayer(players, old(currentTurn)).playerId)
    {
      hide Balance, Bets, Money, ActivePlayers, AllSolvent, Loser, WithoutLoser, NextActivePlayer;
      SomebodyActive(players);
      if accepted && winner.Some? {
        DropLoser(Loser(players, currentTurn, winner.value));
      }
      currentTurn := NextActivePlayer(players, currentTurn).playerId;
      turnNo := turnNo + 1;
      gameStatus := Playing;
    }

    method DropLoser(loser: Option<UserId>)
      requires IsCommission(bonusCommission) && AllSolvent(players, bonusCommission)
      modifies this`players
      ensures players == WithoutLoser(old(players), loser)
      ensures AllSolvent(players, bonusCommission) && Bets(players) == Bets(old(players)) &&
          Money(players) == Money(old(players))
    {
      hide Balance, Bets, Money;
      players := WithoutLoser(players, loser);
      FlagsOnly(old(players), players, bonusCommission);
    }

    // ---------- timers ----------

    /** Nobody answered the sideshow of this turn: the player asked is packed. */
    method SideshowTimeout(turn: nat, round: nat, receiver: UserId)
      requires Valid()
      modifies this
      ensures Valid() && Total() == old(Total()) && potAmount == old(potAmount)
      ensures if IsClosed(old(gameStatus)) || turn != old(turnNo) || round != old(roundNo) || old(players) == []
              then unchanged(this)
              else var passed := old(Now()).(currentTurn := NextActivePlayer(old(players), old(currentTurn)).playerId);
                   Now() == AfterPack(passed, Some(receiver), potLimit)
    {
      hide Balance, Bets, Money, ActivePlayers;
      if gameStatus == RoundEnded || gameStatus == GameEnded || turn != turnNo || round != roundNo || players == [] {
        return;
      }
      currentTurn := NextActivePlayer(players, currentTurn).playerId;
      Pack(Some(receiver));
    }

    method SideshowAccept(loser: Option<UserId>)
      requires Valid()
      modifies this
      ensures Valid() && Total() == old(Total()) && potAmount == old(potAmount)
      ensures if IsClosed(old(gameStatus)) then unchanged(this)
              else var playing := old(Now()).(gameStatus := Playing);
                   Now() == if loser.Some? then AfterPack(playing, loser, potLimit) else playing
    {
      hide Balance, Bets, Money;
      if gameStatus == RoundEnded || gameStatus == GameEnded {
        return;
      }
      gameStatus := Playing;
      if loser.Some? {
        Pack(loser);
      }
    }

    method SideshowReject()
      requires Valid()
      modifies this
      ensures Valid() && Total() == old(Total()) && potAmount == old(potAmount)
      ensures if IsClosed(old(gameStatus)) then unchanged(this)
              else Now() == Passed(old(Now()).(gameStatus := Playing), true, potLimit)
    {
      hide Balance, Bets, Money, ActivePlayers;
      if gameStatus == RoundEnded || gameStatus == GameEnded {
        return;
      }
      gameStatus := Playing;
      Next(true);
    }

    method StartPlaying()
      requires Valid()
      modifies this
      ensures Valid() && Total() == old(Total()) && potAmount == old(potAmount)
      ensures old(gameStatus) != Dealing ==> unchanged(this)
      ensures old(gameStatus) == Dealing ==> Now() == Passed(old(Now()).(gameStatus := Playing), false, potLimit)
    {
      hide Balance, Bets, Money, ActivePlayers;
      if gameStatus != Dealing {
        return;
      }
      gameStatus := Playing;
      Next(false);
    }

    // ---------- the payout ----------

    /**
     * The pot is paid out, net of the commission, and bets are cleared; what the winners do not get is lost. Who cannot
     * pay the next ante but has the money elsewhere (`canRebuy`) is asked to buy in again.
     */
    method PayOut(g: real, compare: Compare, canRebuy: set<UserId>, ghost strength: nat -> int)
      returns (winners: seq<nat>, amounts: seq<real>, ghost lost: real)
      requires Valid() && IsPercentage(g)
      modifies this
      ensures Valid()
      ensures old(gameStatus) == GameEnded ==> unchanged(this)
      ensures old(gameStatus) != GameEnded ==>
                && IsSettled(old(players), old(potAmount), old(commonCard), g, winners, amounts, lost)
                && (old(commonCard) && |old(players)| <= MAX_SEATS ==>
                      && (lost > 0.02 <==> LosesPot(old(players), old(potAmount), g))
                      && (lost > 0.02 ==> lost == Net(old(potAmount), g) - Sidepots(old(players), g)))
                && (!old(commonCard) ==> (lost > 0.0 <==> NobodyInPlay(old(players)) && Net(old(potAmount), g) > 0.0))
                && (old(commonCard) && Ranks(compare, strength) ==>
                      StrongestFirst(old(players), winners, amounts, g, strength) &&
                          EqualsTogether(old(players), winners, strength))
                && Now() == old(Now()).(
                     players := PaidAll(old(players), amounts, initialBetAmount, bonusCommission, canRebuy),
                     potAmount := 0.0, turnNo := old(turnNo) + 1, hidden := false,
                     gameStatus := if |old(players)| < 2 then GameEnded else old(gameStatus))
                && Total() == old(Total()) - (old(potAmount) - Net(old(potAmount), g)) - lost
    {
      hide Balance, Bets, Money, Net, SkillPattiPayout.Sum, Ranks, StrongestFirst, EqualsTogether, AllSolvent,
           IsFair, AllSidepotsPaid, AllInPlay, AreSeats, PaidSeat, LosesPot, NobodyInPlay, Sidepots;
      if gameStatus == GameEnded {
        return [], [], 0.0;
      }
      SolventSidepots(players, bonusCommission);
      winners, amounts, lost := GameEnd(players, potAmount, commonCard, g, compare, strength);
      PayoutSums(players, amounts, initialBetAmount, bonusCommission, canRebuy);
      PayoutKeepsSolvency(players, amounts, initialBetAmount, bonusCommission, canRebuy);
      players := PaidAll(players, amounts, initialBetAmount, bonusCommission, canRebuy);
      potAmount, turnNo, hidden := 0.0, turnNo + 1, false;
      if |players| < 2 {
        gameStatus := GameEnded;
      }
    }

    // ---------- a stuck table ----------

    /** Everybody gets the own bets back into the main sub-wallet: together exactly what the table holds. */
    method DestroyInactiveTable() returns (amounts: seq<SubWallet>)
      requires Valid()
      ensures |amounts| == |players|
      ensures forall i :: 0 <= i < |players| ==>
          amounts[i] == players[i].amount.(main := players[i].amount.main + players[i].betAmount)
      ensures SumOf(amounts) == Total()
    {
      amounts := [];
      for i := 0 to |players|
        invariant |amounts| == i
        invariant forall j :: 0 <= j < i ==>
            amounts[j] == players[j].amount.(main := players[j].amount.main + players[j].betAmount)
        invariant SumOf(amounts) == Money(players[..i]) + Bets(players[..i])
      {
        var amount := players[i].amount;
        assert players[..i + 1][..i] == players[..i];
        amounts := amounts + [amount.(main := amount.main + players[i].betAmount)];
      }
      assert players[..|players|] == players;
    }
  }

  /** A seat after the payout. */
  function PaidSeat(p: SpPlayer, amount: real, ante: real, c: real, canRebuy: set<UserId>): SpPlayer
    requires IsCommission(c)
  {
    var paid := p.(amount := p.amount.(winning := p.amount.winning + amount), betAmount := 0.0);
    paid.(rebuying := paid.rebuying || (Balance(paid.amount, c) <= ante && p.userId in canRebuy))
  }

  function PaidAll(players: seq<SpPlayer>, amounts: seq<real>, ante: real, c: real,
                   canRebuy: set<UserId>): (r: seq<SpPlayer>)
    requires IsCommission(c) && |amounts| == |players|
    ensures |r| == |players|
    ensures forall i {:trigger r[i]} :: 0 <= i < |r| ==> r[i] == PaidSeat(players[i], amounts[i], ante, c, canRebuy)
  {
    seq(|players|, i requires 0 <= i < |players| => PaidSeat(players[i], amounts[i], ante, c, canRebuy))
  }

  lemma {:induction false} PayoutSums(players: seq<SpPlayer>, amounts: seq<real>, ante: real, c: real,
                                      canRebuy: set<UserId>)
    requires IsCommission(c) && |amounts| == |players|
    ensures Bets(PaidAll(players, amounts, ante, c, canRebuy)) == 0.0
    ensures Money(PaidAll(players, amounts, ante, c, canRebuy)) == Money(players) + SkillPattiPayout.Sum(amounts)
  {
    hide Balance;
    if players != [] {
      var n := |players| - 1;
      PayoutSums(players[..n], amounts[..n], ante, c, canRebuy);
      assert PaidAll(players, amounts, ante, c, canRebuy)[..n]
             == PaidAll(players[..n], amounts[..n], ante, c, canRebuy);
    }
  }

  lemma PayoutKeepsSolvency(players: seq<SpPlayer>, amounts: seq<real>, ante: real, c: real, canRebuy: set<UserId>)
    requires IsCommission(c) && |amounts| == |players| && AllSolvent(players, c)
    requires forall i :: 0 <= i < |amounts| ==> amounts[i] >= 0.0
    ensures var paid := PaidAll(players, amounts, ante, c, canRebuy);
            && AllSolvent(paid, c)
            && forall i :: 0 <= i < |paid| ==> paid[i].active == players[i].active && paid[i].betAmount == 0.0
                                               && Balance(paid[i].amount, c) >= Balance(players[i].amount, c)
  {
    hide Balance;
    forall i | 0 <= i < |players|
      ensures Balance(PaidSeat(players[i], amounts[i], ante, c, canRebuy).amount, c) >= Balance(players[i].amount, c)
    {
      WinningsRaiseBalance(players[i].amount, amounts[i], c);
    }
  }

  lemma SolventSidepots(players: seq<SpPlayer>, c: real)
    requires IsCommission(c) && AllSolvent(players, c)
    ensures forall i :: 0 <= i < |players| ==> players[i].sidepot >= 0.0
  {
  }

  function SumOf(amounts: seq<SubWallet>): real {
    if amounts == [] then 0.0 else SumOf(amounts[..|amounts| - 1]) + amounts[|amounts| - 1].Sum()
  }

  /** The player has seen the own cards; whether a call then costs double shows when somebody active has not. */
  function Looked(players: seq<SpPlayer>, i: nat): (r: seq<SpPlayer>)
    requires i < |players|
    ensures |r| == |players|
  {
    var seen := players[i := players[i].(seen := true)];
    seen[i := seen[i].(chaalAfterSeen := !AllSeen(ActivePlayers(seen)))]
  }

  predicate AllSeen(players: seq<SpPlayer>) {
    forall i :: 0 <= i < |players| ==> players[i].seen
  }

  /** In a round that goes on the turn passes to an active seat, and to another one than before while two are active. */
  lemma TurnPasses(s: State, limit: real) returns (i: nat)
    requires !IsClosed(s.gameStatus) && !IsOver(s, limit)
    ensures i < |s.players| && s.players[i].active && s.players[i].playerId == Passed(s, false, limit).currentTurn
    ensures Passed(s, false, limit)
            == s.(currentTurn := s.players[i].playerId, turnNo := s.turnNo + 1, gameStatus := Playing)
    ensures InOrder(s.players) && |ActivePlayers(s.players)| >= 2 ==> s.players[i].playerId != s.currentTurn
  {
    hide ActivePlayers;
    NextIsActive(s.players, s.currentTurn);
    i :| 0 <= i < |s.players| && s.players[i] == NextActivePlayer(s.players, s.currentTurn);
  }

  /** It does not matter whether the round is marked as ended before. */
  lemma EndedOnce(s: State)
    ensures s.gameStatus != GameEnded ==>
              Ended(s.(gameStatus := RoundEnded)) == Ended(s.(gameStatus := Playing)) == Ended(s)
  {
  }

  lemma SomebodyActive(players: seq<SpPlayer>)
    requires ActivePlayers(players) != []
    ensures players != []
  {
  }

  function RevealedAll(players: seq<SpPlayer>): (r: seq<SpPlayer>)
    ensures |r| == |players| && forall i {:trigger r[i]} :: 0 <= i < |r| ==>
              r[i] == if players[i].active && !players[i].allin
                      then players[i].(seen := true, chaalAfterSeen := false) else players[i]
  {
    seq(|players|, i requires 0 <= i < |players| =>
      if players[i].active && !players[i].allin then players[i].(seen := true, chaalAfterSeen := false) else players[i])
  }

  /** The user who loses a sideshow: the one asked when the asking player has the better cards, else the one asking. */
  function Loser(players: seq<SpPlayer>, turn: PlayerId, winner: PlayerId): Option<UserId>
    requires ActivePlayers(players) != []
  {
    var startSeat := SeatOfPlayer(players, turn);
    if winner == turn then Some(PreviousActivePlayer(players, turn).userId)
    else if startSeat < |players| then Some(players[startSeat].userId) else None
  }

  /** Revealing changes neither who is active nor the last bets. */
  lemma {:induction false} RevealKeepsActive(players: seq<SpPlayer>)
    ensures |ActivePlayers(RevealedAll(players))| == |ActivePlayers(players)|
    ensures forall i :: 0 <= i < |ActivePlayers(players)| ==>
              ActivePlayers(RevealedAll(players))[i].lastBetAmount == ActivePlayers(players)[i].lastBetAmount
  {
    if players != [] {
      var n := |players| - 1;
      RevealKeepsActive(players[..n]);
      assert RevealedAll(players)[..n] == RevealedAll(players[..n]);
    }
  }

  function WithoutLoser(players: seq<SpPlayer>, loser: Option<UserId>): (r: seq<SpPlayer>)
    ensures |r| == |players| && forall i {:trigger r[i]} :: 0 <= i < |r| ==>
              r[i] == if Some(players[i].userId) == loser then players[i].(active := false) else players[i]
  {
    seq(|players|, i requires 0 <= i < |players| =>
      if Some(players[i].userId) == loser then players[i].(active := false) else players[i])
  }

  /** The call of a seat. */
  function AfterCall(s: State, i: nat, amount: real, c: real): State
    requires IsCommission(c) && i < |s.players|
  {
    s.(players := s.players[i := AfterBet(s.players[i], amount, s.chaalAmount, c)], potAmount := s.potAmount + amount,
       turnNo := s.turnNo + 1)
  }

  /** A raise becomes the new chaal amount. */
  function AfterRaise(s: State, i: nat, amount: real, c: real): State
    requires IsCommission(c) && i < |s.players|
  {
    AfterCall(s.(chaalAmount := amount), i, amount, c)
  }

  /** The whole balance is bet, and the player stays in for the pot as it is then. */
  function AfterAllinBet(s: State, i: nat, c: real): State
    requires IsCommission(c) && i < |s.players|
  {
    var stake := Balance(s.players[i].amount, c);
    var pot := s.potAmount + stake;
    s.(players := s.players[i := AfterBet(AllinSeat(s.players[i], pot), stake, stake, c)], potAmount := pot,
       chaalAmount := Max(stake, s.chaalAmount), turnNo := s.turnNo + 1)
  }

  function AllinSeat(p: SpPlayer, pot: real): SpPlayer {
    p.(active := false, allin := true, seen := true, sidepot := pot)
  }

  lemma StakeIsPositive(players: seq<SpPlayer>, i: nat, c: real)
    requires IsCommission(c) && AllSolvent(players, c) && i < |players|
    ensures Balance(players[i].amount, c) >= 0.0 && players[i].sidepot >= 0.0
  {
    var _ := BalanceIsMin(players[i].amount, c);
  }

  /** Active players get cards, everybody has to look at them anew. */
  function DealtAll(players: seq<SpPlayer>): (r: seq<SpPlayer>)
    ensures |r| == |players|
    ensures forall i {:trigger r[i]} :: 0 <= i < |r| ==>
              r[i] == players[i].(dealt := players[i].dealt || players[i].active, seen := false)
  {
    seq(|players|, i requires 0 <= i < |players| =>
      players[i].(dealt := players[i].dealt || players[i].active, seen := false))
  }

  lemma AnteFits(ante: real, n: nat, limit: real, pot: real, before: real, players: seq<SpPlayer>)
    requires ante * n as real < limit && pot <= before + ante * n as real && before == Bets(players)
    requires forall i :: 0 <= i < |players| ==> players[i].betAmount == 0.0
    ensures pot < limit
  {
    NoBets(players);
  }

  lemma {:induction false} NoBets(players: seq<SpPlayer>)
    requires forall i :: 0 <= i < |players| ==> players[i].betAmount == 0.0
    ensures Bets(players) == 0.0
  {
    if players != [] {
      NoBets(players[..|players| - 1]);
    }
  }

  // ---------- runs ----------

  datatype Event =
    | Start(nextDealer: PlayerId) | Ante | Deal | Play
    | Called(userId: UserId) | Raised(userId: UserId, amount: real) | WentAllin(userId: UserId)
    | Packed(userId: UserId) | Saw(userId: UserId)
    | AskedShowdown(userId: UserId) | AskedSideshow(userId: UserId)
    | Answered(userId: UserId, accepted: bool, winner: Option<PlayerId>)
    | AnswerTimeout(turn: nat, round: nat, receiver: UserId) | Compared(loser: Option<UserId>) | Refused
    | Reveal | End | Pass(isSideshow: bool)
    | Payout(commission: real, compare: Compare, canRebuy: set<UserId>)

  /** Commissions are percentages. */
  ghost predicate IsRequest(e: Event) {
    e.Payout? ==> IsPercentage(e.commission)
  }

  /**
   * Money leaves the table only at the start of a round, with the pot found there, and at a payout, with the commission
   * and what the winners do not get.
   */
  ghost predicate Takes(e: Event, s: State, taken: real) {
    match e
    case Start(_) => taken == if s.gameStatus in {Waiting, RoundEnded} then s.potAmount else 0.0
    case Payout(g, _, _) =>
      if s.gameStatus == GameEnded then taken == 0.0 else s.potAmount - Net(s.potAmount, g) <= taken <= s.potAmount
    case _ => taken == 0.0
  }

  ghost function MoneyOf(s: State): real {
    Money(s.players) + s.potAmount
  }

  /** What one request does to the money; a payout leaves nothing for the next start to drop. */
  ghost predicate MoneyStep(before: State, after: State, e: Event, taken: real) {
    && Takes(e, before, taken) && MoneyOf(after) == MoneyOf(before) - taken
    && (e.Payout? && before.gameStatus != GameEnded ==> after.potAmount == 0.0)
  }

  ghost predicate MoneyRun(trace: seq<State>, events: seq<Event>, taken: seq<real>) {
    && |trace| == |events| + 1 && |taken| == |events|
    && forall n :: 0 <= n < |events| ==> MoneyStep(trace[n], trace[n + 1], events[n], taken[n])
  }

  /** Over a whole run the money at the table falls by exactly what was taken. */
  lemma {:induction false} RunConserves(trace: seq<State>, events: seq<Event>, taken: seq<real>)
    requires MoneyRun(trace, events, taken)
    ensures MoneyOf(trace[|events|]) == MoneyOf(trace[0]) - SkillPattiPayout.Sum(taken)
  {
    hide MoneyOf, Takes;
    if events != [] {
      var n := |events| - 1;
      assert forall m :: 0 <= m <= n ==> trace[..n + 1][m] == trace[m];
      RunConserves(trace[..n + 1], events[..n], taken[..n]);
      assert MoneyStep(trace[n], trace[n + 1], events[n], taken[n]);
    }
  }

  method Handle(table: SpTable, e: Event) returns (ghost taken: real)
    requires table.Valid() && IsRequest(e)
    modifies table
    ensures table.Valid() && MoneyStep(old(table.Now()), table.Now(), e, taken)
  {
    hide Bets, Money, AfterBet, AllSolvent, ActivePlayers, SameMoney, Balance, SkillPattiPayout.Sum, Net, IsPayout,
         AllInPlay;
    taken := 0.0;
    ghost var pot := table.potAmount;
    match e {
      case Start(nextDealer) =>
        var ok := table.StartRound(nextDealer);
        taken := if ok then pot else 0.0;
      case Payout(g, compare, canRebuy) => taken := HandlePayout(table, g, compare, canRebuy);
      case _ => HandleOther(table, e);
    }
  }

  method HandlePayout(table: SpTable, g: real, compare: Compare, canRebuy: set<UserId>) returns (ghost taken: real)
    requires table.Valid() && IsPercentage(g)
    modifies table
    ensures table.Valid() && table.Total() + taken == old(table.Total())
    ensures if old(table.gameStatus) == GameEnded then taken == 0.0
            else old(table.potAmount) - Net(old(table.potAmount), g) <= taken <= old(table.potAmount)
    ensures old(table.gameStatus) != GameEnded ==> table.potAmount == 0.0
  {
    hide Bets, Money, AllSolvent, Balance, SkillPattiPayout.Sum, Net, IsPayout, AllInPlay;
    ghost var pot, status := table.potAmount, table.gameStatus;
    ghost var strength := (seat: nat) => 0;
    var winners, amounts;
    ghost var lost;
    winners, amounts, lost := table.PayOut(g, compare, canRebuy, strength);
    if status != GameEnded {
      AmountsAreNotNegative(old(table.players), winners, amounts);
    }
    taken := if status == GameEnded then 0.0 else pot - Net(pot, g) + lost;
  }

  method HandleOther(table: SpTable, e: Event)
    requires table.Valid() && !e.Start? && !e.Payout?
    modifies table
    ensures table.Valid() && table.Total() == old(table.Total())
  {
    hide Bets, Money, AfterBet, AllSolvent, ActivePlayers, SameMoney, Balance;
    match e {
      case Ante => var _ := table.InitialBet();
      case Deal => var _ := table.DealCards();
      case Play => table.StartPlaying();
      case Called(userId) => var _ := table.Chaal(userId);
      case Raised(userId, amount) => var _ := table.Raise(userId, amount);
      case WentAllin(userId) => var _ := table.Allin(userId);
      case Packed(userId) => var _ := table.PackCards(userId);
      case Saw(userId) => var _ := table.See(userId);
      case AskedShowdown(userId) => var _ := table.Showdown(userId);
      case AskedSideshow(userId) => var _ := table.Sideshow(userId);
      case Answered(userId, accepted, winner) => var _ := table.SideshowRes(userId, accepted, winner);
      case AnswerTimeout(turn, round, receiver) => table.SideshowTimeout(turn, round, receiver);
      case Compared(loser) => table.SideshowAccept(loser);
      case Refused => table.SideshowReject();
      case Reveal => table.RevealCards();
      case End => table.RoundEnd();
      case Pass(isSideshow) => table.Next(isSideshow);
    }
  }

  lemma AmountsAreNotNegative(players: seq<SpPlayer>, winners: seq<nat>, amounts: seq<real>)
    requires IsPayout(players, winners, amounts)
    ensures SkillPattiPayout.Sum(amounts) >= 0.0
  {
    SumIsNotNegative(amounts);
  }

  lemma {:induction false} SumIsNotNegative(amounts: seq<real>)
    requires forall i :: 0 <= i < |amounts| ==> amounts[i] >= 0.0
    ensures SkillPattiPayout.Sum(amounts) >= 0.0
  {
    if amounts != [] {
      SumIsNotNegative(amounts[..|amounts| - 1]);
    }
  }

  /**
   * Any requests, timers and payouts in any order, over any number of rounds: the table stays within its limits and
   * solvent, and a refund at the end hands back the money that was at the table before, less what was taken on the way.
   */
  method RunAndRefund(table: SpTable, events: seq<Event>)
    returns (amounts: seq<SubWallet>, ghost trace: seq<State>, ghost taken: seq<real>)
    requires table.Valid() && forall e <- events :: IsRequest(e)
    modifies table
    ensures table.Valid()
    ensures MoneyRun(trace, events, taken) && trace[0] == old(table.Now()) && trace[|events|] == table.Now()
    ensures SumOf(amounts) == table.Total() == old(table.Total()) - SkillPattiPayout.Sum(taken)
  {
    hide Bets, Money, AfterBet, AllSolvent, ActivePlayers, SameMoney, Balance, SumOf, Takes;
    trace, taken := [table.Now()], [];
    for n := 0 to |events|
      invariant table.Valid()
      invariant MoneyRun(trace, events[..n], taken) && trace[0] == old(table.Now()) && trace[n] == table.Now()
    {
      assert events[n] in events;
      ghost var amount := Handle(table, events[n]);
      trace, taken := trace + [table.Now()], taken + [amount];
    }
    assert events[..|events|] == events;
    RunConserves(trace, events, taken);
    amounts := table.DestroyInactiveTable();
  }
}
