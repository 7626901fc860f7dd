/** The Ludo board: each player's path, which dice move a pawn, where it lands, and the score. */
module LudoBoard {
  import opened Options

  /** PL1 .. PL4. */
  newtype Seat = x: int | 1 <= x <= 4 witness 1

  /** 52 cells on the board, five on each home path. */
  datatype Cell = Base(owner: Seat) | Board(number: int) | HomePath(owner: Seat, step: int) | Home

  const LAST: int := 57

  // ---------- paths ----------

  /** The cell on which each player's pawns start. */
  function StartCell(p: Seat): int {
    match p as int
    case 1 => 1
    case 2 => 27
    case 3 => 14
    case _ => 40
  }

  /** movePawnPaths: the base, 51 board cells from the start cell on, five home path cells, Home. */
  function Path(p: Seat, index: int): Cell
    requires 0 <= index <= LAST
  {
    if index == 0 then Base(p)
    else if index <= 51 then
      var cell := StartCell(p) + index - 1;
      Board(if cell <= 52 then cell else cell - 52)
    else if index <= 56 then HomePath(p, index - 51)
    else Home
  }

  /** indexOf on a player's path. */
  function IndexFrom(p: Seat, cell: Cell, from: int): (i: int)
    requires 0 <= from <= LAST + 1
    ensures i == -1 || (from <= i <= LAST && Path(p, i) == cell)
    ensures i == -1 ==> forall j :: from <= j <= LAST ==> Path(p, j) != cell
    decreases LAST + 1 - from
  {
    if from > LAST then -1 else if Path(p, from) == cell then from else IndexFrom(p, cell, from + 1)
  }

  function IndexOnPath(p: Seat, cell: Cell): int {
    IndexFrom(p, cell, 0)
  }

  /** No cell comes twice on a path, so a cell's index is where it stands. */
  lemma IndexOfPathCell(p: Seat, index: int)
    requires 0 <= index <= LAST
    ensures IndexOnPath(p, Path(p, index)) == index
  {
    assert forall j :: 0 <= j <= LAST && Path(p, j) == Path(p, index) ==> j == index;
  }

  // ---------- moves ----------

  predicate IsDice(dice: int) {
    1 <= dice <= 6
  }

  predicate IsBasePosition(cell: Cell) { cell.Base? }

  predicate IsOnHomePath(cell: Cell) { cell.HomePath? }

  function RemainingSteps(cell: Cell): int {
    if cell.HomePath? then 6 - cell.step else -1
  }

  /** Only a 1 or a 6 leaves the base; on the home path a dice must not lead beyond Home. */
  predicate CanPawnMoveByDice(position: Cell, dice: int) {
    if position == Home then false
    else if IsBasePosition(position) then dice == 1 || dice == 6
    else if IsOnHomePath(position) then RemainingSteps(position) >= dice
    else true
  }

  /** Cells of the board: the labels the paths are made of. */
  predicate IsCell(cell: Cell) {
    match cell
    case Board(n) => 1 <= n <= 52
    case HomePath(_, step) => 1 <= step <= 5
    case _ => true
  }

  /** Where a dice leads, or None where the move is refused. */
  function GetNextPosition(p: Seat, start: Cell, dice: int): Option<Cell>
    requires IsCell(start) && IsDice(dice)
  {
    if start == Home then None
    else if IsBasePosition(start) then
      if dice != 1 && dice != 6 then None else Some(Path(p, 1))
    else
      var remaining := RemainingSteps(start);
      if remaining > 0 && remaining < dice then None
      else
        IndexIsEarly(p, start, dice);
        Some(Path(p, IndexOnPath(p, start) + dice))
  }

  lemma IndexIsEarly(p: Seat, start: Cell, dice: int)
    requires IsCell(start) && IsDice(dice) && start != Home && (start.HomePath? ==> 6 - start.step >= dice)
    ensures 0 <= IndexOnPath(p, start) + dice <= LAST
  {
  }

  /** The legality test shown to the client agrees with the move itself, for every player, cell and dice. */
  lemma CanMoveExactlyWhenMoveSucceeds(p: Seat, position: Cell, dice: int)
    requires IsCell(position) && IsDice(dice)
    ensures CanPawnMoveByDice(position, dice) <==> GetNextPosition(p, position, dice).Some?
  {
    hide IndexFrom, Path;
  }

  // ---------- pawns on their own path ----------

  datatype Pawn = Pawn(owner: Seat, number: int, position: Cell)

  ghost predicate OnPath(p: Seat, cell: Cell) {
    exists index :: 0 <= index <= LAST && cell == Path(p, index)
  }

  /** From the own path a move stays on it, by exactly the dice, or to the first cell from the base. */
  lemma MoveStaysOnPath(p: Seat, index: int, dice: int)
    requires 0 <= index <= LAST && IsDice(dice)
    ensures IsCell(Path(p, index))
    ensures match GetNextPosition(p, Path(p, index), dice)
            case None => index + dice > LAST || (index == 0 && dice !in {1, 6})
            case Some(cell) => if index == 0 then dice in {1, 6} && cell == Path(p, 1)
                               else index + dice <= LAST && cell == Path(p, index + dice)
  {
    IndexOfPathCell(p, index);
  }

  // ---------- score ----------

  /** A pawn counts the steps from its first cell, and twice as many at Home. */
  function PawnScore(pawn: Pawn): int {
    var distance := IndexOnPath(pawn.owner, pawn.position) - 1;
    if distance > 0 then if distance == 56 then 2 * distance else distance else 0
  }

  /** What the pawns of a player count together. */
  function Score(pawns: seq<Pawn>, p: Seat): int {
    if pawns == [] then 0 else
      Score(pawns[..|pawns| - 1], p) + if pawns[|pawns| - 1].owner == p then PawnScore(pawns[|pawns| - 1]) else 0
  }

  lemma ScoreOfIndex(pawn: Pawn, index: int)
    requires 1 <= index <= LAST && pawn.position == Path(pawn.owner, index)
    ensures PawnScore(pawn) == if index == LAST then 112 else index - 1
  {
    IndexOfPathCell(pawn.owner, index);
  }

  lemma {:induction false} PawnChanges(pawns: seq<Pawn>, k: nat, pawn: Pawn, p: Seat)
    requires k < |pawns| && pawn.owner == pawns[k].owner
    ensures Score(pawns[k := pawn], p) == Score(pawns, p)
            + if pawn.owner == p then PawnScore(pawn) - PawnScore(pawns[k]) else 0
  {
    hide PawnScore;
    var n := |pawns| - 1;
    if k < n {
      PawnChanges(pawns[..n], k, pawn, p);
      assert pawns[k := pawn][..n] == pawns[..n][k := pawn];
    } else {
      assert pawns[k := pawn][..n] == pawns[..n];
    }
  }

  /** Moving an on-board pawn raises its owner's score by the dice, and by 56 more at Home, and nobody else's. */
  lemma MoveRaisesOwnScore(pawns: seq<Pawn>, k: nat, index: int, dice: int, p: Seat)
    requires k < |pawns| && 1 <= index && IsDice(dice) && index + dice <= LAST &&
        pawns[k].position == Path(pawns[k].owner, index)
    ensures GetNextPosition(pawns[k].owner, pawns[k].position, dice) == Some(Path(pawns[k].owner, index + dice))
    ensures var moved := pawns[k].(position := Path(pawns[k].owner, index + dice));
            Score(pawns[k := moved], p) == Score(pawns, p)
              + if p == pawns[k].owner then dice + (if index + dice == LAST then 56 else 0) else 0
  {
    hide IndexFrom, Path;
    MoveStaysOnPath(pawns[k].owner, index, dice);
    var moved := pawns[k].(position := Path(pawns[k].owner, index + dice));
    PawnChanges(pawns, k, moved, p);
    ScoreOfIndex(pawns[k], index);
    ScoreOfIndex(moved, index + dice);
  }

  /** Sending a pawn back to its start takes away what it had counted, and nothing from anybody else. */
  lemma ResetLowersOwnScore(pawns: seq<Pawn>, k: nat, p: Seat)
    requires k < |pawns|
    ensures var back := pawns[k].(position := Path(pawns[k].owner, 1));
            Score(pawns[k := back], p) == Score(pawns, p) - if p == pawns[k].owner then PawnScore(pawns[k]) else 0
  {
    hide PawnScore;
    var back := pawns[k].(position := Path(pawns[k].owner, 1));
    PawnChanges(pawns, k, back, p);
    ScoreOfIndex(back, 1);
  }
}
