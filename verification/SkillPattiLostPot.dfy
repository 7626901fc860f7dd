/** A concrete round of Skill Patti at the end of which part of the pot is lost. */
module SkillPattiLostPot {
  import opened Options
  import opened SubWallets
  import opened SkillPattiMoney
  import opened SkillPattiPayout
  import opened SkillPatti
  import opened Sequences

  /** A player who has spent `bet` and keeps `main`. */
  function Player(id: nat, main: real, bet: real, last: real): SpPlayer {
    SpPlayer(id, id, SubWallet(main, 0.0, 0.0), true, false, false, false, true, false, bet, last, 0.0)
  }

  lemma PlainBalance(main: real)
    ensures Balance(SubWallet(main, 0.0, 0.0), 0.0) == main
  {
  }

  lemma PlainDebit(main: real, fee: real)
    requires 0.0 <= fee <= main
    ensures Debit(SubWallet(main, 0.0, 0.0), fee, 0.0) == Paid(SubWallet(main - fee, 0.0, 0.0))
  {
  }

  lemma PlainBet(p: SpPlayer, main: real, amount: real, last: real)
    requires p.amount == SubWallet(main, 0.0, 0.0) && 0.0 <= amount <= main
    ensures AfterBet(p, amount, last, 0.0)
         == p.(amount := SubWallet(main - amount, 0.0, 0.0), betAmount := p.betAmount + amount, lastBetAmount := last)
  {
    PlainDebit(main, amount);
  }

  /** The lists of three seats. */
  lemma OfThree(a: SpPlayer, b: SpPlayer, c: SpPlayer)
    ensures ActivePlayers([a, b, c]) ==
            (if a.active then [a] else []) + (if b.active then [b] else []) + (if c.active then [c] else [])
    ensures |AllinPlayers([a, b, c])| ==
            (if !a.active && a.allin then 1 else 0) + (if !b.active && b.allin then 1 else 0)
            + if !c.active && c.allin then 1 else 0
  {
    assert [a, b, c][..2] == [a, b] && [a, b][..1] == [a] && [a][..0] == [];
    assert ActivePlayers([a]) == if a.active then [a] else [];
    assert ActivePlayers([a, b]) == (if a.active then [a] else []) + (if b.active then [b] else []);
    assert |AllinPlayers([a])| == if !a.active && a.allin then 1 else 0;
    assert |AllinPlayers([a, b])| == (if !a.active && a.allin then 1 else 0) + if !b.active && b.allin then 1 else 0;
  }

  // ---------- the states of the round ----------

  /** Cards are dealt, everybody has paid an ante of 1 and player 2 is on turn with 6 left. */
  function Playing0(): State {
    State([Player(1, 19.0, 1.0, 0.0), Player(2, 6.0, 1.0, 0.0), Player(3, 19.0, 1.0, 0.0)],
          3.0, 1.0, true, true, 2, 1, 1, 1, Playing)
  }

  /** Player 2 is all-in with a side pot of 9. */
  function Allin2(): SpPlayer {
    Player(2, 0.0, 7.0, 6.0).(active := false, allin := true, seen := true, sidepot := 9.0)
  }

  function Playing1(): State {
    State([Player(1, 19.0, 1.0, 0.0), Allin2(), Player(3, 19.0, 1.0, 0.0)], 9.0, 6.0, true, true, 3, 1, 3, 1, Playing)
  }

  /** Player 3 has called 6 without looking. */
  function Playing2(): State {
    State([Player(1, 19.0, 1.0, 0.0), Allin2(), Player(3, 13.0, 7.0, 6.0)], 15.0, 6.0, true, true, 1, 1, 5, 1, Playing)
  }

  /** Player 1 has looked, which makes a call cost double as long as player 3 has not. */
  function Looking(): State {
    Playing2().(players := [Player(1, 19.0, 1.0, 0.0).(seen := true, chaalAfterSeen := true), Allin2(),
                            Player(3, 13.0, 7.0, 6.0)])
  }

  /** Players 1 and 3 have looked; the cards are shown and a call costs 12. */
  function Playing3(): State {
    State([Player(1, 19.0, 1.0, 0.0).(seen := true), Allin2(), Player(3, 13.0, 7.0, 6.0).(seen := true)],
          15.0, 12.0, false, true, 1, 1, 5, 1, Playing)
  }

  /** Player 1 has packed; player 3 is on turn. */
  function Playing4(): State {
    State([Player(1, 19.0, 1.0, 0.0).(seen := true, active := false), Allin2(),
           Player(3, 13.0, 7.0, 6.0).(seen := true)],
          15.0, 12.0, false, true, 3, 1, 7, 1, Playing)
  }

  /** Player 3 has packed too. */
  function Over(): State {
    State([Player(1, 19.0, 1.0, 0.0).(seen := true, active := false), Allin2(),
           Player(3, 13.0, 7.0, 6.0).(seen := true, active := false)],
          15.0, 12.0, false, true, 3, 1, 8, 1, RoundEnded)
  }

  // ---------- from one to the next ----------

  /** With two active players and room in the pot the turn passes to the later one, or around to the first. */
  lemma PassToOneOfTwo(s: State, x: SpPlayer, y: SpPlayer, limit: real)
    requires ActivePlayers(s.players) == [x, y] && !IsClosed(s.gameStatus) && s.potAmount < limit
    ensures !IsOver(s, limit)
    ensures var next := if x.playerId > s.currentTurn then x else if y.playerId > s.currentTurn then y else x;
            Passed(s, false, limit) == s.(currentTurn := next.playerId, turnNo := s.turnNo + 1, gameStatus := Playing)
  {
    hide ActivePlayers;
    var i := FirstAfter([x, y], s.currentTurn);
    assert [x, y][0] == x && [x, y][1] == y;
  }

  lemma PassToOnlyOne(s: State, x: SpPlayer, limit: real)
    requires ActivePlayers(s.players) == [x] && x.lastBetAmount < s.chaalAmount
    requires !IsClosed(s.gameStatus) && s.potAmount < limit
    ensures Passed(s, false, limit) == s.(currentTurn := x.playerId, turnNo := s.turnNo + 1, gameStatus := Playing)
  {
    hide ActivePlayers;
  }

  lemma SeatOfThree(a: SpPlayer, b: SpPlayer, c: SpPlayer, id: nat)
    requires a.userId == a.playerId == 1 && b.userId == b.playerId == 2 && c.userId == c.playerId == 3
    requires 1 <= id <= 3
    ensures SeatOfUser([a, b, c], id) == SeatOfPlayer([a, b, c], id) == id - 1
  {
    var s := [a, b, c];
    var i, j := SeatOfUser(s, id), SeatOfPlayer(s, id);
    assert s[id - 1].userId == s[id - 1].playerId == id;
  }

  lemma AllinStep()
    ensures AfterAllin(AfterAllinBet(Playing0(), 1, 0.0), 100.0) == Playing1()
  {
    hide ActivePlayers, AllinPlayers, Balance, AfterBet, IsOver, Passed, NextActivePlayer, Revealed;
    var s := AfterAllinBet(Playing0(), 1, 0.0);
    PlainBalance(6.0);
    PlainBet(AllinSeat(Player(2, 6.0, 1.0, 0.0), 9.0), 6.0, 6.0, 6.0);
    var c1, c3 := Player(1, 19.0, 1.0, 0.0), Player(3, 19.0, 1.0, 0.0);
    OfThree(c1, Allin2(), c3);
    assert s.players == [c1, Allin2(), c3];
    assert ActivePlayers(s.players) == [c1, c3];
    PassToOneOfTwo(s, c1, c3, 100.0);
    assert !AllSeen([c1, c3]) by { assert ![c1, c3][0].seen; }
  }

  lemma CallStep()
    ensures Passed(AfterCall(Playing1(), 2, 6.0, 0.0), false, 100.0) == Playing2()
  {
    hide ActivePlayers, AllinPlayers, Balance, AfterBet, IsOver, Passed, NextActivePlayer, Revealed;
    var s := AfterCall(Playing1(), 2, 6.0, 0.0);
    var c1, c3 := Player(1, 19.0, 1.0, 0.0), Player(3, 13.0, 7.0, 6.0);
    PlainBet(Player(3, 19.0, 1.0, 0.0), 19.0, 6.0, 6.0);
    OfThree(c1, Allin2(), c3);
    assert s.players == [c1, Allin2(), c3];
    PassToOneOfTwo(s, c1, c3, 100.0);
  }

  lemma FirstLook()
    ensures RevealedIfSeen(Playing2().(players := Looked(Playing2().players, 0))) == Looking()
  {
    hide ActivePlayers, AllinPlayers, Revealed;
    var c1, c3 := Player(1, 19.0, 1.0, 0.0).(seen := true), Player(3, 13.0, 7.0, 6.0);
    var l1 := c1.(chaalAfterSeen := true);
    OfThree(c1, Allin2(), c3);
    OfThree(l1, Allin2(), c3);
    NotAllSeen(c1, c3);
    NotAllSeen(l1, c3);
    var seen := Playing2().players[0 := c1];
    assert seen == [c1, Allin2(), c3] && seen[0] == c1;
    assert ActivePlayers(seen) == [c1] + [c3];
    assert seen[0 := l1] == [l1, Allin2(), c3];
    assert ActivePlayers(seen[0 := l1]) == [l1] + [c3];
    assert Playing2().players[0].(seen := true) == c1;
    assert Looked(Playing2().players, 0) == seen[0 := l1];
  }

  lemma NotAllSeen(x: SpPlayer, y: SpPlayer)
    requires !y.seen
    ensures !AllSeen([x] + [y])
  {
    assert ([x] + [y])[1] == y;
  }

  /** When both have looked the cards are shown, and the call of 6 no longer suffices. */
  lemma SecondLook()
    ensures RevealedIfSeen(Looking().(players := Looked(Looking().players, 2))) == Playing3()
  {
    hide ActivePlayers, AllinPlayers;
    var l1, l3 := Looking().players[0], Player(3, 13.0, 7.0, 6.0).(seen := true);
    OfThree(l1, Allin2(), l3);
    assert Looking().players[2 := l3] == [l1, Allin2(), l3];
    assert AllSeen([l1, l3]);
    assert Looked(Looking().players, 2) == [l1, Allin2(), l3];
    assert RevealedAll([l1, Allin2(), l3]) == Playing3().players;
  }

  lemma FirstPack()
    ensures AfterPack(Playing3(), None, 100.0) == Playing4()
  {
    hide ActivePlayers, AllinPlayers, IsOver, Passed, Revealed, Ended, NextActivePlayer, IndexWhere;
    var p1, l3 := Playing4().players[0], Playing4().players[2];
    SeatOfThree(Playing3().players[0], Allin2(), l3, 1);
    var s := PackedSeat(Playing3(), 0);
    assert s.players == [p1, Allin2(), l3];
    OfThree(p1, Allin2(), l3);
    PassToOnlyOne(s, l3, 100.0);
  }

  lemma LastPack()
    ensures AfterPack(Playing4(), None, 100.0) == Over()
  {
    hide ActivePlayers, AllinPlayers, IsOver, Passed, NextActivePlayer, IndexWhere;
    var p1, p3 := Over().players[0], Over().players[2];
    SeatOfThree(p1, Allin2(), Playing4().players[2], 3);
    var s := PackedSeat(Playing4(), 2);
    assert s.players == [p1, Allin2(), p3];
    OfThree(p1, Allin2(), p3);
  }

  // ---------- the beginning and the end ----------

  function Seats(): seq<SpPlayer> {
    [Newcomer(1, 20.0), Newcomer(2, 7.0), Newcomer(3, 20.0)]
  }

  function Newcomer(id: nat, main: real): SpPlayer {
    SpPlayer(id, id, SubWallet(main, 0.0, 0.0), false, false, false, false, false, false, 0.0, 0.0, 0.0)
  }

  /** The round has started and everybody takes part. */
  function Started(): State {
    State([Newcomer(1, 20.0).(active := true), Newcomer(2, 7.0).(active := true), Newcomer(3, 20.0).(active := true)],
          0.0, 1.0, true, false, 1, 1, 0, 1, RoundStarted)
  }

  function Dealt(): State {
    State([Player(1, 19.0, 1.0, 0.0), Player(2, 6.0, 1.0, 0.0), Player(3, 19.0, 1.0, 0.0)],
          3.0, 1.0, true, true, 1, 1, 0, 1, Dealing)
  }

  lemma StartStep(players: seq<SpPlayer>)
    requires |players| == 3 && forall i :: 0 <= i < 3 ==> players[i] == ResetSeat(Seats()[i], 1.0, 0.0)
    ensures players == Started().players
  {
    hide Balance;
    PlainBalance(20.0);
    PlainBalance(7.0);
  }

  lemma AnteStep(players: seq<SpPlayer>)
    requires |players| == 3 && forall i :: 0 <= i < 3 ==> players[i] == AfterBet(Started().players[i], 1.0, 0.0, 0.0)
    ensures DealtAll(players) == Dealt().players && Bets(players) == 3.0
  {
    hide AfterBet, Balance;
    PlainBet(Started().players[0], 20.0, 1.0, 0.0);
    PlainBet(Started().players[1], 7.0, 1.0, 0.0);
    PlainBet(Started().players[2], 20.0, 1.0, 0.0);
    assert players[..2][..1] == players[..1] && players[..1][..0] == [];
    assert Bets(players[..1]) == 1.0;
    assert Bets(players[..2]) == 2.0;
  }

  lemma PlayStep()
    ensures Passed(Dealt().(gameStatus := Playing), false, 100.0) == Playing0()
  {
    hide ActivePlayers;
    var s := Dealt().(gameStatus := Playing);
    OfThree(s.players[0], s.players[1], s.players[2]);
    var i := FirstAfter(s.players, 1);
    assert s.players[1].playerId == 2 && s.players[0].playerId == 1;
  }

  /** Only player 2 is in play and may take 9 of the 15 in the pot. */
  lemma LossStep(g: real)
    requires g == 0.0
    ensures LosesPot(Over().players, 15.0, g) && Net(15.0, g) - Sidepots(Over().players, g) == 6.0
  {
    var p := Over().players;
    assert p[..2][..1] == p[..1] && p[..1][..0] == [];
    assert Sidepots(p[..1], g) == 0.0;
    assert Sidepots(p[..2], g) == 9.0;
    assert Sidepots(p, g) == 9.0;
  }

  lemma MoneyOfSeats()
    ensures Money(Seats()) == 47.0
  {
    var p := Seats();
    assert p[..2][..1] == p[..1] && p[..1][..0] == [];
    assert Money(p[..1]) == 20.0;
    assert Money(p[..2]) == 27.0;
  }

  // ---------- the round ----------

  ghost predicate IsTable(table: SpTable)
    reads table
  {
    table.Valid() && table.potLimit == 100.0 && table.initialBetAmount == 1.0 && table.bonusCommission == 0.0
  }

  method StartTable() returns (table: SpTable)
    ensures fresh(table) && IsTable(table) && table.Now() == Playing0() && table.Total() == 47.0
  {
    hide Balance, Bets, Money, AllSolvent, AfterBet, DealtAll, ResetSeat, Passed;
    MoneyOfSeats();
    table := new SpTable(Seats(), 100.0, 1.0, 0.0);
    var _ := table.StartRound(1);
    StartStep(table.players);
    assert table.Now() == Started();
    var _ := table.InitialBet();
    AnteStep(table.players);
    var _ := table.DealCards();
    assert table.Now() == Dealt();
    PlayStep();
    table.StartPlaying();
  }

  method BetUntilOver(table: SpTable)
    requires IsTable(table) && table.Now() == Playing0()
    modifies table
    ensures IsTable(table) && table.Now() == Over() && table.Total() == old(table.Total())
  {
    hide Bets, Money, AllSolvent, AfterBet, Passed, AfterAllin, AfterAllinBet, AfterCall, AfterPack, Looked,
         RevealedIfSeen, SeatOfUser, SeatOfPlayer, SpTable.Valid;
    AllinStep();
    SeatOfThree(Playing0().players[0], Playing0().players[1], Playing0().players[2], 2);
    PlainBalance(6.0);
    var _ := table.Allin(2);
    assert table.Now() == Playing1();
    CallStep();
    SeatOfThree(Playing1().players[0], Playing1().players[1], Playing1().players[2], 3);
    PlainBalance(19.0);
    var _ := table.Chaal(3);
    assert table.Now() == Playing2();
    FirstLook();
    SeatOfThree(Playing2().players[0], Playing2().players[1], Playing2().players[2], 1);
    var _ := table.See(1);
    assert table.Now() == Looking();
    SecondLook();
    SeatOfThree(Looking().players[0], Looking().players[1], Looking().players[2], 3);
    var _ := table.See(3);
    assert table.Now() == Playing3();
    FirstPack();
    SeatOfThree(Playing3().players[0], Playing3().players[1], Playing3().players[2], 1);
    var _ := table.PackCards(1);
    assert table.Now() == Playing4();
    LastPack();
    SeatOfThree(Playing4().players[0], Playing4().players[1], Playing4().players[2], 3);
    var _ := table.PackCards(3);
  }

  method PayAll(table: SpTable, compare: Compare) returns (winners: seq<nat>, amounts: seq<real>)
    requires IsTable(table) && table.Now() == Over()
    modifies table
    ensures table.Valid() && table.Total() == old(table.Total()) - 6.0
    ensures IsSettled(Over().players, 15.0, true, 0.0, winners, amounts, 6.0)
  {
    hide Bets, Money, AllSolvent, IsSettled, LosesPot, SpTable.Valid;
    LossStep(0.0);
    ghost var lost;
    ghost var strength := (seat: nat) => 0;
    winners, amounts, lost := table.PayOut(0.0, compare, {}, strength);
    assert Net(15.0, 0.0) == 15.0;
    assert lost == 6.0;
  }

  /**
   * Player 2 is all-in for 9 of the pot, player 3 calls without looking, players 1 and 3 look, which doubles the price
   * of a call, and both pack. Of the 47 brought to the table 6 are gone after the payout, though no commission is
   * taken.
   */
  method PlayTheRound(compare: Compare) returns (table: SpTable, winners: seq<nat>, amounts: seq<real>)
    ensures table.Valid() && table.Total() == Money(Seats()) - 6.0 == 41.0
    ensures IsSettled(Over().players, 15.0, true, 0.0, winners, amounts, 6.0)
  {
    table := StartTable();
    BetUntilOver(table);
    MoneyOfSeats();
    winners, amounts := PayAll(table, compare);
  }
}
