/**
 * Round counts, the round clock and prize bands of a Ludo tournament. Money is in integer paise, time in milliseconds.
 */
module TournamentMath {

  // ---------- how many rounds ----------

  /** Math.ceil(n / k) for positive n. */
  function CeilDiv(n: nat, k: nat): (c: nat)
    requires k >= 1
    ensures c * k >= n && (n > 0 ==> (c - 1) * k < n)
  {
    (n + k - 1) / k
  }

  function Pow(k: nat, r: nat): nat {
    if r == 0 then 1 else k * Pow(k, r - 1)
  }

  /** r is the least number of rounds after which k^r seats cover n players. */
  ghost predicate LeastRounds(n: int, k: nat, r: nat) {
    Pow(k, r) >= n && forall q: nat :: q < r ==> Pow(k, q) < n
  }

  function Rounds(n: int, k: nat): nat
    requires k >= 2
    decreases if n > 1 then n else 0
  {
    if n <= 1 then 0 else
      CeilDivShrinks(n, k);
      1 + Rounds(CeilDiv(n, k), k)
  }

  lemma CeilDivShrinks(n: nat, k: nat)
    requires k >= 2 && n > 1
    ensures 1 <= CeilDiv(n, k) < n
  {
    var c := CeilDiv(n, k);
    assert (c - 1) * k >= (c - 1) * 2 by { MulMonotone(c - 1, 2, k); }
  }

  lemma MulMonotone(c: int, a: nat, b: nat)
    requires c >= 0 && a <= b
    ensures c * a <= c * b
  {
  }

  /** With fewer than two players per table the loop would not end for n > 1, so k >= 2. */
  method CalculateTotalRounds(playerNumber: int, noPlayersPerGame: nat) returns (totalRound: nat)
    requires noPlayersPerGame >= 2
    ensures totalRound == Rounds(playerNumber, noPlayersPerGame)
    ensures LeastRounds(playerNumber, noPlayersPerGame, totalRound)
  {
    var n := playerNumber;
    totalRound := 0;
    while n > 1
      invariant totalRound + Rounds(n, noPlayersPerGame) == Rounds(playerNumber, noPlayersPerGame)
      decreases n
    {
      CeilDivShrinks(n, noPlayersPerGame);
      n := CeilDiv(n, noPlayersPerGame);
      totalRound := totalRound + 1;
    }
    RoundsIsLeast(playerNumber, noPlayersPerGame);
  }

  /** k * m >= n exactly when m >= ceil(n / k). */
  lemma CeilDivGalois(n: nat, k: nat, m: nat)
    requires k >= 1 && n > 0
    ensures k * m >= n <==> m >= CeilDiv(n, k)
  {
    var c := CeilDiv(n, k);
    if m >= c {
      MulMonotone(k, c, m);
    } else {
      MulMonotone(k, m, c - 1);
    }
  }

  lemma {:induction false} RoundsIsLeast(n: int, k: nat)
    requires k >= 2
    ensures LeastRounds(n, k, Rounds(n, k))
    decreases if n > 1 then n else 0
  {
    if n > 1 {
      var c := CeilDiv(n, k);
      CeilDivShrinks(n, k);
      RoundsIsLeast(c, k);
      CeilDivGalois(n, k, Pow(k, Rounds(c, k)));
      forall q: nat | q < Rounds(n, k)
        ensures Pow(k, q) < n
      {
        if q > 0 {
          assert Pow(k, q - 1) < c;
          CeilDivGalois(n, k, Pow(k, q - 1));
        }
      }
    }
  }

  /** The least number is unique, so Rounds is the only function with the property. */
  lemma LeastRoundsUnique(n: int, k: nat, r: nat)
    requires k >= 2 && LeastRounds(n, k, r)
    ensures r == Rounds(n, k)
  {
    RoundsIsLeast(n, k);
    var q: nat := Rounds(n, k);
    assert r < q ==> Pow(k, r) < n;
    assert q < r ==> Pow(k, q) < n;
  }

  lemma {:induction false} RoundsMonotone(m: int, n: int, k: nat)
    requires k >= 2 && m <= n
    ensures Rounds(m, k) <= Rounds(n, k)
  {
    RoundsIsLeast(m, k);
    RoundsIsLeast(n, k);
    var q: nat := Rounds(n, k);
    assert q < Rounds(m, k) ==> Pow(k, q) < m;
  }

  // ---------- the round clock ----------

  /** Waiting time before a round, playing time, and the bingo screen after it. */
  datatype Clock = Clock(waiting: nat, duration: nat, bingo: nat) {
    function RoundLength(): nat { waiting + duration + bingo }
  }

  method CalculateRoundStartTime(tournamentStart: int, roundNo: int, clock: Clock) returns (startAt: int)
    ensures roundNo >= 1 ==> startAt == RoundStart(tournamentStart, roundNo, clock)
    ensures roundNo < 1 ==> startAt == tournamentStart
  {
    startAt := tournamentStart;
    var index := 0;
    while index < roundNo - 1
      invariant 0 <= index && (roundNo >= 1 ==> index <= roundNo - 1) && (roundNo < 1 ==> index == 0)
      invariant startAt == RoundStart(tournamentStart, index + 1, clock)
    {
      startAt := startAt + clock.RoundLength();
      StartOfNextRound(tournamentStart, index + 1, clock);
      index := index + 1;
    }
  }

  function RoundStart(tournamentStart: int, roundNo: int, clock: Clock): int {
    tournamentStart + (roundNo - 1) * clock.RoundLength()
  }

  /** When the end of the round is scheduled: the bingo screen is not part of it. */
  function ScheduledEnd(tournamentStart: int, roundNo: int, clock: Clock): int {
    RoundStart(tournamentStart, roundNo, clock) + clock.waiting + clock.duration
  }

  /** Math.ceil(elapsed / length), for any sign of the elapsed time. */
  function RoundAt(tournamentStart: int, now: int, clock: Clock): int
    requires clock.RoundLength() > 0
  {
    -((tournamentStart - now) / clock.RoundLength())
  }

  lemma StartOfNextRound(tournamentStart: int, roundNo: int, clock: Clock)
    ensures RoundStart(tournamentStart, roundNo + 1, clock)
         == RoundStart(tournamentStart, roundNo, clock) + clock.RoundLength()
  {
    assert roundNo * clock.RoundLength() == (roundNo - 1) * clock.RoundLength() + clock.RoundLength();
  }

  /** The round read off the wall clock is r exactly in the half-open slot (start of r, start of r + 1]. */
  lemma RoundAtExact(tournamentStart: int, now: int, roundNo: int, clock: Clock)
    requires clock.RoundLength() > 0
    ensures RoundAt(tournamentStart, now, clock) == roundNo <==>
            RoundStart(tournamentStart, roundNo, clock) < now <= RoundStart(tournamentStart, roundNo + 1, clock)
  {
    var len := clock.RoundLength();
    var q := (tournamentStart - now) / len;
    assert q * len <= tournamentStart - now < q * len + len;
    StartOfNextRound(tournamentStart, roundNo, clock);
    if q == -roundNo {
      assert (-roundNo) * len == -(roundNo * len);
    } else if q < -roundNo {
      MulMonotoneInt(len, q, -roundNo - 1);
    } else {
      MulMonotoneInt(len, -roundNo + 1, q);
    }
  }

  lemma MulMonotoneInt(c: nat, a: int, b: int)
    requires a <= b
    ensures a * c <= b * c
  {
  }

  /**
   * Elapsed time t into round r, 0 < t <= D, is read as r; the scheduled end plus the bingo wait starts round r + 1.
   */
  lemma ClockAgreesWithSchedule(tournamentStart: int, roundNo: int, t: int, clock: Clock)
    requires 0 < t <= clock.RoundLength()
    ensures RoundAt(tournamentStart, RoundStart(tournamentStart, roundNo, clock) + t, clock) == roundNo
    ensures ScheduledEnd(tournamentStart, roundNo, clock) + clock.bingo
            == RoundStart(tournamentStart, roundNo + 1, clock)
  {
    StartOfNextRound(tournamentStart, roundNo, clock);
    RoundAtExact(tournamentStart, RoundStart(tournamentStart, roundNo, clock) + t, roundNo, clock);
  }

  // ---------- prizes ----------

  datatype WinningPrize = WinningPrize(minRank: int, maxRank: int, amount: nat)

  predicate Covers(p: WinningPrize, rank: int) {
    rank <= p.maxRank && rank >= p.minRank
  }

  /** The first band covering the rank pays; nobody else gets anything. */
  function CalculateWinAmount(prizes: seq<WinningPrize>, rank: int): nat {
    if prizes == [] then 0
    else if Covers(prizes[0], rank) then prizes[0].amount
    else CalculateWinAmount(prizes[1..], rank)
  }

  function BandTotal(prizes: seq<WinningPrize>): int {
    if prizes == [] then 0
    else prizes[0].amount * (prizes[0].maxRank - prizes[0].minRank + 1) + BandTotal(prizes[1..])
  }

  method CalculateTotalAmount(joinFee: nat, maxNoPlayers: nat, prizes: seq<WinningPrize>, registrationOver: bool)
    returns (total: int)
    ensures total == if registrationOver then BandTotal(prizes) else joinFee * maxNoPlayers
  {
    if registrationOver {
      total := 0;
      for i := 0 to |prizes|
        invariant total + BandTotal(prizes[i..]) == BandTotal(prizes)
      {
        total := total + prizes[i].amount * (prizes[i].maxRank - prizes[i].minRank + 1);
      }
    } else {
      total := joinFee * maxNoPlayers;
    }
  }

  ghost predicate WellFormedBands(prizes: seq<WinningPrize>, noPlayers: nat) {
    && (forall i :: 0 <= i < |prizes| ==> 1 <= prizes[i].minRank <= prizes[i].maxRank <= noPlayers)
    && (forall i, j, rank :: 0 <= i < j < |prizes| && Covers(prizes[i], rank) ==> !Covers(prizes[j], rank))
  }

  /** What the ranks lo+1 .. hi are worth one by one. */
  function PrizeSum(prizes: seq<WinningPrize>, lo: int, hi: int): nat
    decreases hi - lo
  {
    if hi <= lo then 0 else PrizeSum(prizes, lo, hi - 1) + CalculateWinAmount(prizes, hi)
  }

  lemma {:induction false} PrizeSumSplit(prizes: seq<WinningPrize>, lo: int, mid: int, hi: int)
    requires lo <= mid <= hi
    ensures PrizeSum(prizes, lo, hi) == PrizeSum(prizes, lo, mid) + PrizeSum(prizes, mid, hi)
    decreases hi - mid
  {
    if mid < hi {
      PrizeSumSplit(prizes, lo, mid, hi - 1);
    }
  }

  /** One band pays its amount to each of the ranks it covers, on top of what the later bands pay. */
  lemma {:induction false} PrizeSumPeel(prizes: seq<WinningPrize>, noPlayers: nat, hi: nat)
    requires prizes != [] && WellFormedBands(prizes, noPlayers) && hi <= noPlayers
    ensures var p := prizes[0];
            var covered := if hi < p.minRank then 0 else if hi <= p.maxRank then hi - p.minRank + 1
                                                    else p.maxRank - p.minRank + 1;
            PrizeSum(prizes, 0, hi) == p.amount * covered + PrizeSum(prizes[1..], 0, hi)
    decreases hi
  {
    if hi > 0 {
      PrizeSumPeel(prizes, noPlayers, hi - 1);
      var p := prizes[0];
      if Covers(p, hi) {
        UncoveredPaysNothing(prizes[1..], hi);
        var c := hi - p.minRank + 1;
        assert p.amount * c == p.amount * (c - 1) + p.amount;
      }
    }
  }

  lemma {:induction false} UncoveredPaysNothing(prizes: seq<WinningPrize>, rank: int)
    requires forall j :: 0 <= j < |prizes| ==> !Covers(prizes[j], rank)
    ensures CalculateWinAmount(prizes, rank) == 0
  {
    if prizes != [] {
      UncoveredPaysNothing(prizes[1..], rank);
    }
  }

  /** Paying every rank 1..N once pays out the advertised total. */
  lemma {:induction false} AllRanksPayTheTotal(prizes: seq<WinningPrize>, noPlayers: nat)
    requires WellFormedBands(prizes, noPlayers)
    ensures PrizeSum(prizes, 0, noPlayers) == BandTotal(prizes)
  {
    if prizes == [] {
      NoBandsPayNothing(noPlayers);
    } else {
      PrizeSumPeel(prizes, noPlayers, noPlayers);
      assert WellFormedBands(prizes[1..], noPlayers);
      AllRanksPayTheTotal(prizes[1..], noPlayers);
    }
  }

  lemma {:induction false} NoBandsPayNothing(hi: nat)
    ensures PrizeSum([], 0, hi) == 0
  {
    if hi > 0 {
      NoBandsPayNothing(hi - 1);
    }
  }
}
