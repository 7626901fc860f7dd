/** Seats of a Skill Patti table and the money at them. */
module SkillPattiMoney {
  import opened SubWallets
  import opened Sequences

  type UserId = nat
  type PlayerId = nat

  datatype SpPlayer = SpPlayer(
    userId: UserId, playerId: PlayerId, amount: SubWallet,
    active: bool, seen: bool, allin: bool, chaalAfterSeen: bool, dealt: bool, rebuying: bool,
    betAmount: real, lastBetAmount: real, sidepot: real)

  // ---------- sums over the seats ----------

  function Bets(players: seq<SpPlayer>): real {
    if players == [] then 0.0 else Bets(players[..|players| - 1]) + players[|players| - 1].betAmount
  }

  function Money(players: seq<SpPlayer>): real {
    if players == [] then 0.0 else Money(players[..|players| - 1]) + players[|players| - 1].amount.Sum()
  }

  lemma {:induction false} SeatChanges(players: seq<SpPlayer>, i: nat, p: SpPlayer)
    requires i < |players|
    ensures Bets(players[i := p]) == Bets(players) - players[i].betAmount + p.betAmount
    ensures Money(players[i := p]) == Money(players) - players[i].amount.Sum() + p.amount.Sum()
  {
    var n := |players| - 1;
    if i < n {
      SeatChanges(players[..n], i, p);
      assert players[i := p][..n] == players[..n][i := p];
    } else {
      assert players[i := p][..n] == players[..n];
    }
  }

  ghost predicate SameMoney(before: seq<SpPlayer>, after: seq<SpPlayer>) {
    |before| == |after| &&
    forall i :: 0 <= i < |before| ==>
      && after[i].amount == before[i].amount && after[i].betAmount == before[i].betAmount
      && after[i].sidepot == before[i].sidepot
  }

  lemma {:induction false} SameMoneySameSums(before: seq<SpPlayer>, after: seq<SpPlayer>)
    requires SameMoney(before, after)
    ensures Bets(after) == Bets(before) && Money(after) == Money(before)
  {
    if before != [] {
      SameMoneySameSums(before[..|before| - 1], after[..|after| - 1]);
    }
  }

  // ---------- solvency ----------

  /** Wallets are not overdrawn, and who can still bet has something left. */
  ghost predicate Solvent(p: SpPlayer, c: real)
    requires IsCommission(c)
  {
    p.amount.NonNegative() && p.betAmount >= 0.0 && p.sidepot >= 0.0 && (p.active ==> Balance(p.amount, c) > 0.0)
  }

  ghost predicate AllSolvent(players: seq<SpPlayer>, c: real)
    requires IsCommission(c)
  {
    forall i :: 0 <= i < |players| ==> Solvent(players[i], c)
  }

  /** A player who has put an amount into the pot. */
  function AfterBet(p: SpPlayer, amount: real, lastBet: real, c: real): SpPlayer
    requires IsCommission(c)
  {
    match Debit(p.amount, amount, c)
    case Paid(wallet) => p.(amount := wallet, betAmount := p.betAmount + amount, lastBetAmount := lastBet)
    case Insufficient => p
  }

  /** A bet moves its amount from the wallet to the bets, whatever happens to the player's other fields. */
  lemma BetMovesMoney(players: seq<SpPlayer>, i: nat, amount: real, lastBet: real, c: real, marked: SpPlayer)
    returns (q: SpPlayer)
    requires IsCommission(c) && AllSolvent(players, c) && i < |players|
    requires 0.0 <= amount <= Balance(players[i].amount, c)
    requires marked.amount == players[i].amount && marked.betAmount == players[i].betAmount
    requires marked.sidepot >= 0.0 && (marked.active ==> amount < Balance(players[i].amount, c))
    ensures q == AfterBet(marked, amount, lastBet, c)
    ensures q.betAmount == marked.betAmount + amount && q.lastBetAmount == lastBet && q.active == marked.active
    ensures AllSolvent(players[i := q], c)
    ensures Bets(players[i := q]) == Bets(players) + amount
    ensures Money(players[i := q]) == Money(players) - amount
    ensures Balance(q.amount, c) == Balance(players[i].amount, c) - amount
  {
    hide Debit, Balance, Bets, Money;
    DebitTakesTheFee(players[i].amount, amount, c);
    q := AfterBet(marked, amount, lastBet, c);
    SeatChanges(players, i, q);
  }

  /** Nobody's money moves and nobody joins in: all sums and everybody's solvency stay. */
  lemma FlagsOnly(before: seq<SpPlayer>, after: seq<SpPlayer>, c: real)
    requires IsCommission(c) && AllSolvent(before, c) && SameMoney(before, after)
    requires forall i :: 0 <= i < |before| ==> after[i].active ==> before[i].active
    ensures AllSolvent(after, c) && Bets(after) == Bets(before) && Money(after) == Money(before)
  {
    hide Balance, Bets, Money;
    SameMoneySameSums(before, after);
  }

  // ---------- finding players ----------

  function ActivePlayers(players: seq<SpPlayer>): seq<SpPlayer> {
    if players == [] then [] else
      ActivePlayers(players[..|players| - 1]) + if players[|players| - 1].active then [players[|players| - 1]] else []
  }

  function AllinPlayers(players: seq<SpPlayer>): seq<SpPlayer> {
    if players == [] then [] else
      var last := players[|players| - 1];
      AllinPlayers(players[..|players| - 1]) + if !last.active && last.allin then [last] else []
  }

  /** The first seat of a user, or the number of seats. */
  function SeatOfUser(players: seq<SpPlayer>, userId: UserId): (i: nat)
    ensures i <= |players| && (i < |players| ==> players[i].userId == userId)
  {
    IndexWhere(players, (p: SpPlayer) => p.userId == userId)
  }

  function SeatOfPlayer(players: seq<SpPlayer>, playerId: PlayerId): (i: nat)
    ensures i <= |players| && (i < |players| ==> players[i].playerId == playerId)
  {
    IndexWhere(players, (p: SpPlayer) => p.playerId == playerId)
  }

  function FirstAfter(players: seq<SpPlayer>, turn: PlayerId): (i: nat)
    ensures i <= |players| && (i < |players| ==> players[i].playerId > turn)
    ensures forall j :: 0 <= j < i ==> players[j].playerId <= turn
  {
    IndexWhere(players, (p: SpPlayer) => p.playerId > turn)
  }

  /** The next active player by id, wrapping around; when nobody is active, the next player. */
  function NextActivePlayer(players: seq<SpPlayer>, turn: PlayerId): SpPlayer
    requires players != []
  {
    var candidates := if ActivePlayers(players) == [] then players else ActivePlayers(players);
    var i := FirstAfter(candidates, turn);
    if i < |candidates| then candidates[i] else candidates[0]
  }

  /** One past the last player before the turn, or 0. */
  function PastLastBefore(players: seq<SpPlayer>, turn: PlayerId): (n: nat)
    ensures n <= |players|
  {
    if players == [] || players[|players| - 1].playerId < turn then |players|
    else PastLastBefore(players[..|players| - 1], turn)
  }

  /** The active player before the turn, wrapping around. */
  function PreviousActivePlayer(players: seq<SpPlayer>, turn: PlayerId): SpPlayer
    requires ActivePlayers(players) != []
  {
    var active := ActivePlayers(players);
    var n := PastLastBefore(active, turn);
    if n > 0 then active[n - 1] else active[|active| - 1]
  }

  /** The seats are in the order of their players' ids. */
  ghost predicate InOrder(players: seq<SpPlayer>) {
    forall i, j :: 0 <= i < j < |players| ==> players[i].playerId < players[j].playerId
  }

  lemma {:induction false} ActiveAreActive(players: seq<SpPlayer>)
    ensures forall p <- ActivePlayers(players) :: p in players && p.active
    ensures InOrder(players) ==> InOrder(ActivePlayers(players))
  {
    if players != [] {
      var n := |players| - 1;
      ActiveAreActive(players[..n]);
      forall p <- ActivePlayers(players[..n])
        ensures InOrder(players) ==> p.playerId < players[n].playerId
      {
        var i :| 0 <= i < n && players[i] == p;
      }
    }
  }

  /** The turn goes to an active player, and to another one than before if two are left. */
  lemma NextIsActive(players: seq<SpPlayer>, turn: PlayerId)
    requires ActivePlayers(players) != []
    ensures players != [] && NextActivePlayer(players, turn) in players && NextActivePlayer(players, turn).active
    ensures InOrder(players) && |ActivePlayers(players)| >= 2 ==> NextActivePlayer(players, turn).playerId != turn
  {
    ActiveAreActive(players);
    var active := ActivePlayers(players);
    assert forall k :: 0 <= k < |active| ==> active[k] in active;
    if |active| >= 2 && FirstAfter(active, turn) == |active| && InOrder(active) {
      assert active[0].playerId < active[1].playerId <= turn;
    }
  }
}
