/** A Ludo table: legal moves, moving and killing pawns, whose turn is next, who has won. */
module LudoTable {
  import opened Options
  import opened LudoBoard
  import opened Sequences

  datatype GameType = Classic | Quick | Furious4 | Tournament

  datatype GameAction = RollDice | MovePawn

  datatype LudoPlayer = LudoPlayer(seat: Seat, didLeave: bool, canGet6: bool, got6: bool)

  datatype CanMovePawn = CanMovePawn(pawn: Pawn, dices: seq<int>)

  datatype Response = Rejected | Moved | Won(winner: Seat)

  const PROTECTED_CELLS: set<int> := {1, 9, 27, 35, 14, 22, 40, 48}

  // ---------- legal moves ----------

  /** The dice that can move a pawn, in the order rolled. */
  function UsableDices(position: Cell, dices: seq<int>): seq<int> {
    if dices == [] then [] else
      var last := dices[|dices| - 1];
      UsableDices(position, dices[..|dices| - 1]) + if CanPawnMoveByDice(position, last) then [last] else []
  }

  function CanMovePawns(pawns: seq<Pawn>, turn: Seat, dices: seq<int>): seq<CanMovePawn> {
    if pawns == [] then [] else
      var pawn := pawns[|pawns| - 1];
      var usable := UsableDices(pawn.position, dices);
      CanMovePawns(pawns[..|pawns| - 1], turn, dices)
      + if pawn.owner == turn && usable != [] then [CanMovePawn(pawn, usable)] else []
  }

  method GetCanMovePawns(pawns: seq<Pawn>, turn: Seat, dices: seq<int>) returns (canMove: seq<CanMovePawn>)
    ensures canMove == CanMovePawns(pawns, turn, dices)
  {
    canMove := [];
    for i := 0 to |pawns|
      invariant canMove == CanMovePawns(pawns[..i], turn, dices)
    {
      assert pawns[..i + 1][..i] == pawns[..i];
      if pawns[i].owner == turn {
        var usable: seq<int> := [];
        for d := 0 to |dices|
          invariant usable == UsableDices(pawns[i].position, dices[..d])
        {
          assert dices[..d + 1][..d] == dices[..d];
          if CanPawnMoveByDice(pawns[i].position, dices[d]) {
            usable := usable + [dices[d]];
          }
        }
        assert dices[..|dices|] == dices;
        if usable != [] {
          canMove := canMove + [CanMovePawn(pawns[i], usable)];
        }
      }
    }
    assert pawns[..|pawns|] == pawns;
  }

  lemma {:induction false} UsableExactly(p: Seat, position: Cell, dices: seq<int>, dice: int)
    requires IsCell(position) && forall d <- dices :: IsDice(d)
    ensures dice in UsableDices(position, dices) <==> dice in dices && GetNextPosition(p, position, dice).Some?
  {
    if dices != [] {
      var n := |dices| - 1;
      UsableExactly(p, position, dices[..n], dice);
      CanMoveExactlyWhenMoveSucceeds(p, position, dices[n]);
      assert dice in dices <==> dice in dices[..n] || dice == dices[n];
    }
  }

  /** The offered moves are exactly the own pawns with the rolled dice by which the move succeeds. */
  lemma {:induction false} OfferedMovesAreLegalMoves(pawns: seq<Pawn>, turn: Seat, dices: seq<int>, pawn: Pawn,
                                                     dice: int)
    requires (forall q <- pawns :: IsCell(q.position)) && forall d <- dices :: IsDice(d)
    ensures (exists m <- CanMovePawns(pawns, turn, dices) :: m.pawn == pawn && dice in m.dices) <==>
            pawn in pawns && pawn.owner == turn && dice in dices && GetNextPosition(turn, pawn.position, dice).Some?
  {
    if pawns != [] {
      var n := |pawns| - 1;
      OfferedMovesAreLegalMoves(pawns[..n], turn, dices, pawn, dice);
      UsableExactly(turn, pawns[n].position, dices, dice);
      hide GetNextPosition, UsableDices, IsCell;
      var front, all := CanMovePawns(pawns[..n], turn, dices), CanMovePawns(pawns, turn, dices);
      assert pawn in pawns <==> pawn in pawns[..n] || pawn == pawns[n];
      var last := CanMovePawn(pawns[n], UsableDices(pawns[n].position, dices));
      if pawn == pawns[n] && pawn.owner == turn && dice in last.dices {
        assert all[|all| - 1] == last;
        assert last in all;
      }
      assert forall m <- front :: m in all;
    }
  }

  // ---------- turns ----------

  function PlayerOrder(p: Seat): Seat {
    match p as int
    case 1 => 3
    case 2 => 4
    case 3 => 2
    case _ => 1
  }

  predicate Plays(players: seq<LudoPlayer>, p: Seat) {
    exists i :: 0 <= i < |players| && players[i].seat == p && !players[i].didLeave
  }

  /** The n-th player after p in turn order. */
  function NthAfter(p: Seat, n: nat): Seat {
    if n == 0 then p else PlayerOrder(NthAfter(p, n - 1))
  }

  /** The first of the four players after p, p last, who still plays; p if nobody does. */
  method GetNextTurn(players: seq<LudoPlayer>, p: Seat) returns (next: Seat)
    requires forall i, j :: 0 <= i < j < |players| ==> players[i].seat != players[j].seat
    ensures next == NextTurn(players, p)
  {
    next := p;
    for index := 0 to 4
      invariant next == NthAfter(p, index)
      invariant forall m :: 1 <= m <= index ==> !Plays(players, NthAfter(p, m))
    {
      next := PlayerOrder(next);
      if Plays(players, next) {
        NextTurnIs(players, p, index + 1);
        return;
      }
    }
    FourOrdersReturn(p);
  }

  function NextTurn(players: seq<LudoPlayer>, p: Seat): Seat {
    if Plays(players, NthAfter(p, 1)) then NthAfter(p, 1)
    else if Plays(players, NthAfter(p, 2)) then NthAfter(p, 2)
    else if Plays(players, NthAfter(p, 3)) then NthAfter(p, 3)
    else p
  }

  lemma NextTurnIs(players: seq<LudoPlayer>, p: Seat, n: nat)
    requires 1 <= n <= 4 && Plays(players, NthAfter(p, n)) && forall m :: 1 <= m < n ==> !Plays(players, NthAfter(p, m))
    ensures NextTurn(players, p) == NthAfter(p, n)
  {
    hide Plays;
    FourOrdersReturn(p);
    assert n == 1 || n == 2 || n == 3 || n == 4;
  }

  /** The order is one cycle through all four players. */
  lemma FourOrdersReturn(p: Seat)
    ensures NthAfter(p, 4) == p
    ensures NthAfter(p, 1) == PlayerOrder(p) != p && NthAfter(p, 2) == PlayerOrder(PlayerOrder(p)) != p
    ensures NthAfter(p, 3) == PlayerOrder(PlayerOrder(PlayerOrder(p))) != p
  {
    assert NthAfter(p, 0) == p;
  }

  lemma ComesUp(p: Seat, q: Seat) returns (n: nat)
    ensures n < 4 && NthAfter(p, n) == q
  {
    FourOrdersReturn(p);
    n := if q == p then 0 else if q == NthAfter(p, 1) then 1 else if q == NthAfter(p, 2) then 2 else 3;
  }

  /** The turn goes to somebody still playing whenever there is one, and to somebody else if there is somebody else. */
  lemma TurnGoesToAPlayer(players: seq<LudoPlayer>, p: Seat, q: Seat)
    requires Plays(players, q)
    ensures Plays(players, NextTurn(players, p))
    ensures q != p ==> NextTurn(players, p) != p
  {
    hide Plays;
    FourOrdersReturn(p);
    var n := ComesUp(p, q);
    assert n == 0 || n == 1 || n == 2 || n == 3;
  }

  // ---------- winners ----------

  type Scores = map<Seat, int>

  /** Players who left count nothing. */
  function Adjusted(players: seq<LudoPlayer>, scores: Scores): Scores {
    if players == [] then scores else
      var last := players[|players| - 1];
      var front := Adjusted(players[..|players| - 1], scores);
      if last.didLeave then front[last.seat := 0] else front
  }

  ghost predicate IsMax(scores: Scores, best: int) {
    (exists p <- scores :: scores[p] == best) && forall p <- scores :: scores[p] <= best
  }

  function Staying(players: seq<LudoPlayer>): seq<LudoPlayer> {
    if players == [] then [] else
      Staying(players[..|players| - 1]) + if players[|players| - 1].didLeave then [] else [players[|players| - 1]]
  }

  /** Everybody with the best score wins; with nothing but zeros only a player left alone does. */
  method FindWinners(players: seq<LudoPlayer>, scores: Scores) returns (winners: seq<Seat>)
    ensures var adjusted := Adjusted(players, scores);
            if adjusted == map[] then winners == []
            else exists best :: IsMax(adjusted, best) &&
                   if best == 0 then winners == if |Staying(players)| == 1 then [Staying(players)[0].seat] else []
                   else NoRepeats(winners) && forall p :: p in winners <==> p in adjusted && adjusted[p] == best
  {
    hide Adjusted, Staying;
    var adjusted := ZeroLeavers(players, scores);
    if adjusted == map[] {
      return [];
    }
    var maxScore := MaxScore(adjusted);
    if maxScore == 0 {
      var remainingPlayers := Staying(players);
      return if |remainingPlayers| == 1 then [remainingPlayers[0].seat] else [];
    }
    winners := TopScorers(adjusted, maxScore);
  }

  method ZeroLeavers(players: seq<LudoPlayer>, scores: Scores) returns (adjusted: Scores)
    ensures adjusted == Adjusted(players, scores)
  {
    adjusted := scores;
    for i := 0 to |players|
      invariant adjusted == Adjusted(players[..i], scores)
    {
      assert players[..i + 1][..i] == players[..i];
      if players[i].didLeave {
        adjusted := adjusted[players[i].seat := 0];
      }
    }
    assert players[..|players|] == players;
  }

  method MaxScore(scores: Scores) returns (best: int)
    requires scores != map[]
    ensures IsMax(scores, best)
  {
    var leader: Seat := 1;
    var found := false;
    var n: int := 1;
    while n <= 4
      invariant 1 <= n <= 5
      invariant found ==> leader in scores
      invariant forall p <- scores :: p as int < n ==> found && scores[p] <= scores[leader]
    {
      var p := n as Seat;
      if p in scores && (!found || scores[p] > scores[leader]) {
        leader, found := p, true;
      }
      n := n + 1;
    }
    var p :| p in scores;
    best := scores[leader];
  }

  method TopScorers(scores: Scores, best: int) returns (winners: seq<Seat>)
    ensures NoRepeats(winners) && forall p :: p in winners <==> p in scores && scores[p] == best
  {
    winners := [];
    var n: int := 1;
    while n <= 4
      invariant 1 <= n <= 5 && NoRepeats(winners)
      invariant forall p :: p in winners <==> p in scores && scores[p] == best && p as int < n
    {
      var p := n as Seat;
      if p in scores && scores[p] == best {
        winners := winners + [p];
      }
      n := n + 1;
    }
  }

  // ---------- moving a pawn ----------

  /** The first pawn with the given owner and number, or the number of pawns. */
  function PawnIndex(pawns: seq<Pawn>, owner: Seat, number: int): (k: nat)
    ensures k <= |pawns| && (k < |pawns| ==> pawns[k].owner == owner && pawns[k].number == number)
  {
    IndexWhere(pawns, (p: Pawn) => p.owner == owner && p.number == number)
  }

  function CountAt(pawns: seq<Pawn>, cell: Cell): nat {
    if pawns == [] then 0 else
      CountAt(pawns[..|pawns| - 1], cell) + if pawns[|pawns| - 1].position == cell then 1 else 0
  }

  /** The first pawn on a cell, or the number of pawns. */
  function FirstAt(pawns: seq<Pawn>, cell: Cell): (k: nat)
    ensures k <= |pawns| && (k < |pawns| ==> pawns[k].position == cell)
  {
    IndexWhere(pawns, (p: Pawn) => p.position == cell)
  }

  predicate IsProtected(cell: Cell) {
    cell.Board? && cell.number in PROTECTED_CELLS
  }

  /** The pawn sent back by a move to a cell: the only pawn there, another player's, on an open cell. */
  function Killed(pawns: seq<Pawn>, cell: Cell, mover: Seat): Option<nat> {
    var k := FirstAt(pawns, cell);
    if cell != Home && CountAt(pawns, cell) == 1 && k < |pawns| && pawns[k].owner != mover && !IsProtected(cell)
    then Some(k) else None
  }

  function AfterMove(pawns: seq<Pawn>, k: nat, cell: Cell): (r: seq<Pawn>)
    requires k < |pawns|
    ensures |r| == |pawns|
  {
    var killed := Killed(pawns, cell, pawns[k].owner);
    var moved := pawns[k := pawns[k].(position := cell)];
    if killed.Some? && killed.value != k then
      moved[killed.value := pawns[killed.value].(position := Path(pawns[killed.value].owner, 1))]
    else moved
  }

  ghost predicate OnOwnPath(pawn: Pawn) {
    OnPath(pawn.owner, pawn.position)
  }

  /** A legal move leaves every pawn on its own path. */
  lemma MovesKeepPaths(pawns: seq<Pawn>, k: nat, dice: int)
    requires k < |pawns| && IsDice(dice) && forall i :: 0 <= i < |pawns| ==> OnOwnPath(pawns[i])
    ensures IsCell(pawns[k].position)
    ensures var next := GetNextPosition(pawns[k].owner, pawns[k].position, dice);
            next.Some? ==> forall i :: 0 <= i < |pawns| ==> OnOwnPath(AfterMove(pawns, k, next.value)[i])
  {
    var p := pawns[k].owner;
    var index :| 0 <= index <= LAST && pawns[k].position == Path(p, index);
    MoveStaysOnPath(p, index, dice);
    hide Path, GetNextPosition, Killed;
    var next := GetNextPosition(p, pawns[k].position, dice);
    if next.Some? {
      assert OnPath(p, next.value);
      forall q: Seat
        ensures OnPath(q, Path(q, 1))
      {
      }
    }
  }

  /**
   * Over a whole move, kill included: the mover's score rises by the dice, and by 56 more at Home;
   * the killed pawn's owner loses what that pawn had counted; nobody else's score changes.
   */
  lemma MoveScores(pawns: seq<Pawn>, k: nat, index: int, dice: int, p: Seat)
    requires k < |pawns| && 1 <= index && IsDice(dice) && index + dice <= LAST &&
        pawns[k].position == Path(pawns[k].owner, index)
    ensures var cell := Path(pawns[k].owner, index + dice);
            var killed := Killed(pawns, cell, pawns[k].owner);
            Score(AfterMove(pawns, k, cell), p) == Score(pawns, p)
              + (if p == pawns[k].owner then dice + (if index + dice == LAST then 56 else 0) else 0)
              - (if killed.Some? && p == pawns[killed.value].owner then PawnScore(pawns[killed.value]) else 0)
  {
    hide Path, PawnScore, Score;
    var cell := Path(pawns[k].owner, index + dice);
    var moved := pawns[k := pawns[k].(position := cell)];
    MoveRaisesOwnScore(pawns, k, index, dice, p);
    var killed := Killed(pawns, cell, pawns[k].owner);
    if killed.Some? {
      assert killed.value != k;
      ResetLowersOwnScore(moved, killed.value, p);
    }
  }

  /** How many pawns at Home win. */
  function TargetPawns(gameType: GameType): nat {
    if gameType == Quick then 2 else 4
  }

  class LudoGame {
    const gameType: GameType
    var players: seq<LudoPlayer>
    var pawnPositions: seq<Pawn>
    var action: GameAction
    var currentTurn: Seat
    var lastDiceValues: seq<int>
    var extraChances: nat
    var turnNo: nat

    ghost predicate Valid()
      reads this
    {
      && (forall i, j :: 0 <= i < j < |players| ==> players[i].seat != players[j].seat)
      && (forall i :: 0 <= i < |pawnPositions| ==> OnOwnPath(pawnPositions[i]))
      && (forall d <- lastDiceValues :: IsDice(d))
    }

    /** Four pawns for every player, all on their first cell. */
    constructor (type_: GameType, noPlayers: Seat)
      ensures Valid() && gameType == type_ && currentTurn == 1 && action == RollDice
      ensures |pawnPositions| == 4 * noPlayers as int
      ensures forall i :: 0 <= i < |pawnPositions| ==> pawnPositions[i].position == Path(pawnPositions[i].owner, 1)
    {
      gameType, action, currentTurn, lastDiceValues, extraChances, turnNo := type_, RollDice, 1, [], 0, 0;
      var seats, pawns := InitialPositions(noPlayers);
      players, pawnPositions := seats, pawns;
    }

    /** One requested move. A rejected request and the winning move leave the stored table as it is. */
    method MovePawn(owner: Seat, number: int, dice: int) returns (response: Response)
      requires Valid()
      modifies this
      ensures Valid()
      ensures var k := PawnIndex(old(pawnPositions), owner, number);
              response != Rejected <==>
                && old(action) == GameAction.MovePawn && dice in old(lastDiceValues) && owner == old(currentTurn)
                && (exists i :: 0 <= i < |old(players)| && old(players)[i].seat == owner) && k < |old(pawnPositions)|
                && GetNextPosition(owner, old(pawnPositions)[k].position, dice).Some?
      ensures response != Rejected ==>
                var k := PawnIndex(old(pawnPositions), owner, number);
                response == if GetNextPosition(owner, old(pawnPositions)[k].position, dice) == Some(Home)
                               && CountHome(old(pawnPositions), owner, k) == TargetPawns(gameType)
                            then Won(owner) else Moved
      ensures response == Moved ==>
                var k := PawnIndex(old(pawnPositions), owner, number);
                pawnPositions == AfterMove(old(pawnPositions), k,
                    GetNextPosition(owner, old(pawnPositions)[k].position, dice).value)
      ensures response == Moved ==>
                var k := PawnIndex(old(pawnPositions), owner, number);
                var cell := GetNextPosition(owner, old(pawnPositions)[k].position, dice).value;
                var chances := old(extraChances)
                               + if cell == Home || Killed(old(pawnPositions), cell, owner).Some? then 1 else 0;
                var left := WithoutOne(old(lastDiceValues), dice);
                var stuck := CanMovePawns(pawnPositions, owner, left) == [];
                && turnNo == old(turnNo) + 1
                && currentTurn == (if stuck && chances == 0 then NextTurn(old(players), owner) else owner)
                && lastDiceValues == (if stuck && chances == 0 then [] else left)
                && players == (if stuck && chances == 0 && old(players)[SeatIndex(old(players), owner)].got6
                               then WithoutSix(old(players), SeatIndex(old(players), owner)) else old(players))
                && action == (if stuck then RollDice else GameAction.MovePawn)
                && extraChances == (if stuck && chances > 0 then chances - 1 else chances)
      ensures response != Moved ==> unchanged(this)
    {
      hide AfterMove, Killed, CanMovePawns, PawnIndex, NextTurn, OnOwnPath;
      if action != GameAction.MovePawn || dice !in lastDiceValues {
        return Rejected;
      }
      var seat := SeatIndex(players, currentTurn);
      var k := PawnIndex(pawnPositions, owner, number);
      if seat == |players| || owner != currentTurn || k == |pawnPositions| {
        return Rejected;
      }
      MovesKeepPaths(pawnPositions, k, dice);
      var next := GetNextPosition(owner, pawnPositions[k].position, dice);
      if next.None? {
        return Rejected;
      }
      var targetPawnCount := TargetPawns(gameType);
      if next.value == Home && CountHome(pawnPositions, owner, k) == targetPawnCount {
        return Won(owner);
      }
      var killed := Killed(pawnPositions, next.value, owner);
      var chances := extraChances + if next.value == Home || killed.Some? then 1 else 0;
      turnNo := turnNo + 1;
      pawnPositions := AfterMove(pawnPositions, k, next.value);
      var nextTurn := GetNextTurn(players, currentTurn);
      lastDiceValues := WithoutOne(lastDiceValues, dice);
      var canMove := GetCanMovePawns(pawnPositions, currentTurn, lastDiceValues);
      if chances == 0 && canMove == [] {
        if players[seat].got6 {
          players := WithoutSix(players, seat);
        }
        currentTurn := nextTurn;
        lastDiceValues := [];
      }
      action := if canMove == [] then RollDice else GameAction.MovePawn;
      extraChances := if canMove == [] && chances > 0 then chances - 1 else chances;
      return Moved;
    }
  }

  method InitialPositions(noPlayers: Seat) returns (players: seq<LudoPlayer>, pawns: seq<Pawn>)
    ensures forall i, j :: 0 <= i < j < |players| ==> players[i].seat != players[j].seat
    ensures |pawns| == 4 * noPlayers as int
    ensures forall i :: 0 <= i < |pawns| ==> OnOwnPath(pawns[i]) && pawns[i].position == Path(pawns[i].owner, 1)
  {
    players, pawns := [], [];
    var playerIndex: int := 1;
    while playerIndex <= noPlayers as int
      invariant 1 <= playerIndex <= noPlayers as int + 1
      invariant |players| == playerIndex - 1 && forall i :: 0 <= i < |players| ==> players[i].seat as int == i + 1
      invariant |pawns| == 4 * (playerIndex - 1)
      invariant forall i :: 0 <= i < |pawns| ==> OnOwnPath(pawns[i]) && pawns[i].position == Path(pawns[i].owner, 1)
    {
      var p := playerIndex as Seat;
      assert OnPath(p, Path(p, 1));
      players := players + [LudoPlayer(p, false, true, false)];
      for pawnIndex := 1 to 5
        invariant |pawns| == 4 * (playerIndex - 1) + pawnIndex - 1
        invariant forall i :: 0 <= i < |pawns| ==> OnOwnPath(pawns[i]) && pawns[i].position == Path(pawns[i].owner, 1)
      {
        pawns := pawns + [Pawn(p, pawnIndex, Path(p, 1))];
      }
      playerIndex := playerIndex + 1;
    }
  }

  function SeatIndex(players: seq<LudoPlayer>, seat: Seat): (i: nat)
    ensures i <= |players| && (i < |players| ==> players[i].seat == seat)
    ensures i == |players| ==> forall j :: 0 <= j < |players| ==> players[j].seat != seat
  {
    IndexWhere(players, (p: LudoPlayer) => p.seat == seat)
  }

  /** The player's pawns at Home, counting the one just arriving. */
  function CountHome(pawns: seq<Pawn>, owner: Seat, arriving: nat): nat {
    if pawns == [] then 0 else
      var n := |pawns| - 1;
      CountHome(pawns[..n], owner, arriving)
      + if n == arriving || (pawns[n].owner == owner && pawns[n].position == Home) then 1 else 0
  }

  function WithoutOne(dices: seq<int>, dice: int): (r: seq<int>)
    ensures forall d <- r :: d in dices
  {
    if dices == [] then [] else if dices[0] == dice then dices[1..] else [dices[0]] + WithoutOne(dices[1..], dice)
  }

  /** The player may not roll a 6 again until nobody still playing may; then everybody may. */
  function WithoutSix(players: seq<LudoPlayer>, i: nat): (r: seq<LudoPlayer>)
    requires i < |players|
    ensures |r| == |players|
    ensures forall j :: 0 <= j < |r| ==> r[j].seat == players[j].seat && r[j].didLeave == players[j].didLeave
  {
    var less := players[i := players[i].(canGet6 := false)];
    if exists j :: 0 <= j < |less| && !less[j].didLeave && less[j].canGet6 then less
    else seq(|less|, j requires 0 <= j < |less| => less[j].(canGet6 := true, got6 := false))
  }
}
